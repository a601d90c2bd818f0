/**
  The cache and the marks on disk: when a directory's mark is set or removed and its watch tells it,
  every answer is what the marks say again, but for one way through a link.
*/
module OverlayMarks {
  import opened Wrappers
  import opened OverlayRules
  import opened OverlayInvariant
  import opened OverlayAsking
  import opened OverlayReading

  // ---------------------------------------------------------------- the directories above a path

  function WithoutTrailingSlashes(path: Path): Path {
    if |path| > 1 && path[|path| - 1] == '/' then WithoutTrailingSlashes(path[..|path| - 1]) else path
  }

  function LastSlash(path: Path): (at: Option<nat>)
    ensures at.Some? ==> at.value < |path| && path[at.value] == '/'
  {
    if path == "" then None
    else if path[|path| - 1] == '/' then Some(|path| - 1)
    else LastSlash(path[..|path| - 1])
  }

  lemma {:induction false} TrimmedIs(path: Path)
    ensures |WithoutTrailingSlashes(path)| <= |path| && WithoutTrailingSlashes(path) == path[..|WithoutTrailingSlashes(path)|]
    ensures path != "" ==> WithoutTrailingSlashes(path) != ""
  {
    if |path| > 1 && path[|path| - 1] == '/' {
      TrimmedIs(path[..|path| - 1]);
    }
  }

  /** The directory a path is in; nothing above the top. */
  function Parent(path: Path): (parent: Path)
    ensures path != "" ==> |parent| < |path|
  {
    TrimmedIs(path);
    var trimmed := WithoutTrailingSlashes(path);
    match LastSlash(trimmed)
    case None => ""
    case Some(slash) => if trimmed == "/" then "" else if slash == 0 then "/" else trimmed[..slash]
  }

  /** The nearest marked directory at or above a path. */
  function FindRoot(isMarked: Path -> bool, dir: Path): Option<Path>
    decreases |dir|
  {
    if dir == "" then None
    else if isMarked(dir) then Some(dir)
    else FindRoot(isMarked, Parent(dir))
  }

  /** `dir` is the path or a directory above it. */
  predicate Reaches(path: Path, dir: Path)
    decreases |path|
  {
    path != "" && (path == dir || Reaches(Parent(path), dir))
  }

  lemma ParentIsAbove(path: Path)
    requires path != "" && Parent(path) != ""
    ensures IsInside(path, Parent(path))
  {
    TrimmedIs(path);
    var trimmed, parent := WithoutTrailingSlashes(path), Parent(path);
    var slash := LastSlash(trimmed).value;
    assert path[..slash + 1] == trimmed[..slash + 1];
    if slash == 0 {
      assert path[..1] == "/";
    } else if parent[|parent| - 1] == '/' {
      assert path[..slash] == parent;
    } else {
      assert path[..slash + 1] == parent + "/";
    }
  }

  lemma InsideThen(p: Path, q: Path, r: Path)
    requires IsInside(p, q) && IsInside(q, r)
    ensures IsInside(p, r)
  {
    if p != q && q != r {
      var a := if r != "" && r[|r| - 1] == '/' then r else r + "/";
      var b := if q != "" && q[|q| - 1] == '/' then q else q + "/";
      assert p[..|a|] == b[..|a|] == q[..|a|] by {
        assert p[..|b|] == b && |a| <= |q| <= |b|;
        assert p[..|b|][..|a|] == p[..|a|];
      }
    }
  }

  /** A directory that a path's parents reach has it inside. */
  lemma {:induction false} ReachedIsInside(path: Path, dir: Path)
    requires Reaches(path, dir)
    ensures IsInside(path, dir)
    decreases |path|
  {
    hide IsInside;
    if path == dir {
      InsideItself(path);
    } else {
      ReachedIsInside(Parent(path), dir);
      ParentIsAbove(path);
      InsideThen(path, Parent(path), dir);
    }
  }

  lemma InsideItself(path: Path)
    ensures IsInside(path, path)
  {
  }

  lemma {:induction false} FoundIsMarked(isMarked: Path -> bool, dir: Path)
    ensures match FindRoot(isMarked, dir)
            case Some(root) => Reaches(dir, root) && isMarked(root)
            case None => forall d :: Reaches(dir, d) ==> !isMarked(d)
    decreases |dir|
  {
    if dir != "" && !isMarked(dir) {
      FoundIsMarked(isMarked, Parent(dir));
    }
  }

  /** From a directory that is reached the same root is found, when it lies at or above it. */
  lemma {:induction false} FoundFromRoot(isMarked: Path -> bool, dir: Path)
    requires FindRoot(isMarked, dir).Some?
    ensures FindRoot(isMarked, FindRoot(isMarked, dir).value) == FindRoot(isMarked, dir)
    decreases |dir|
  {
    if !isMarked(dir) {
      FoundFromRoot(isMarked, Parent(dir));
    }
  }

  /** When no mark was set at or above a path, its root is the old one, unless that one's mark was removed. */
  lemma {:induction false} RootStays(before: Path -> bool, after: Path -> bool, dir: Path)
    requires FindRoot(after, dir).Some? ==> before(FindRoot(after, dir).value)
    requires FindRoot(before, dir).Some? ==> after(FindRoot(before, dir).value)
    ensures FindRoot(after, dir) == FindRoot(before, dir)
    decreases |dir|
  {
    if dir != "" && !before(dir) && !after(dir) {
      RootStays(before, after, Parent(dir));
    }
  }

  // ---------------------------------------------------------------- a disk of marks

  /** Where paths lead once their links are resolved: every directory above such a path is one itself. */
  ghost predicate Resolves(physical: Path -> Path) {
    forall p, d :: Reaches(physical(p), d) ==> physical(d) == d
  }

  function DiskOf(isMarked: Path -> bool, physical: Path -> Path, inodeOf: Path -> Option<Inode>): Disk {
    Disk(p => FindRoot(isMarked, physical(p)), inodeOf)
  }

  lemma DiskIsSound(isMarked: Path -> bool, physical: Path -> Path, inodeOf: Path -> Option<Inode>)
    requires Resolves(physical)
    ensures DiskOf(isMarked, physical, inodeOf).Sound()
  {
    var disk := DiskOf(isMarked, physical, inodeOf);
    forall dir: Path | disk.rootOf(dir).Some?
      ensures disk.rootOf(disk.rootOf(dir).value) == disk.rootOf(dir)
    {
      FoundIsMarked(isMarked, physical(dir));
      FoundFromRoot(isMarked, physical(dir));
    }
  }

  /** What changed on the disk was told: each directory whose mark was set or removed has a watch that says so, or some was not told. */
  ghost predicate AllAreTold(s: Engine, before: Path -> bool, after: Path -> bool, notices: seq<Notice>) {
    Overflow in notices || forall d :: before(d) != after(d) ==> d in s.directories && MarkChanged(s.directories[d].watch) in notices
  }

  lemma ToldAre(s: Engine, notices: seq<Notice>, p: Path)
    requires IndexOk(s)
    ensures p in MarkedOf(s, notices) <==> p in s.directories && MarkChanged(s.directories[p].watch) in notices
    ensures p in GoneOf(s, notices) <==> p in s.directories && Gone(s.directories[p].watch) in notices
  {
    forall n <- notices | !n.Overflow?
      ensures p in PathsOf(s, n.watch) <==> p in s.directories && s.directories[p].watch == n.watch
    {
      assert p in PathsOf(s, n.watch) <==> n.watch in s.pathsByWatch && p in s.pathsByWatch[n.watch];
    }
    hide IndexOk, PathsOf;
    if p in s.directories {
      var marked, gone := MarkChanged(s.directories[p].watch), Gone(s.directories[p].watch);
      assert marked in notices ==> p in PathsOf(s, marked.watch);
      assert gone in notices ==> p in PathsOf(s, gone.watch);
    }
    if p in MarkedOf(s, notices) {
      var n :| n in notices && n.MarkChanged? && p in PathsOf(s, n.watch);
      assert n == MarkChanged(n.watch);
    }
    if p in GoneOf(s, notices) {
      var n :| n in notices && n.Gone? && p in PathsOf(s, n.watch);
      assert n == Gone(n.watch);
    }
  }

  lemma AllToldAreMarked(s: Engine, before: Path -> bool, after: Path -> bool, notices: seq<Notice>)
    requires IndexOk(s) && AllAreTold(s, before, after, notices)
    ensures Overflow in notices || forall d :: before(d) != after(d) ==> d in MarkedOf(s, notices)
  {
    hide IndexOk, MarkedOf;
    forall d | before(d) != after(d)
      ensures Overflow in notices || d in MarkedOf(s, notices)
    {
      ToldAre(s, notices, d);
    }
  }

  /** Every answer is what the marks were. */
  ghost predicate AreAnswered(s: Engine, isMarked: Path -> bool, physical: Path -> Path) {
    forall p <- s.directories :: s.directories[p].root == FindRoot(isMarked, physical(p))
  }

  /**
    A link is missed: a mark was set at or above where it leads, nearer than any other, and the
    link is not below that directory by its own name, nor of anything else that was told.
  */
  ghost predicate IsMissed(s: Engine, before: Path -> bool, after: Path -> bool, physical: Path -> Path, notices: seq<Notice>, p: Path) {
    && p in Forgotten(s, notices).directories && !Depends(Forgotten(s, notices), Suspect(s, notices), p)
    && FindRoot(after, physical(p)).Some? && !before(FindRoot(after, physical(p)).value)
  }

  lemma ForgottenIsPart(s: Engine, notices: seq<Notice>)
    ensures var u := Forgotten(s, notices); forall p <- u.directories :: p in s.directories && u.directories[p] == s.directories[p]
  {
    ForgetTreesNames(s, GoneOf(s, notices));
    hide Drop;
  }

  /** What is not worked out again is right already, unless a link is missed. */
  lemma RestIsCurrentIff(s: Engine, before: Path -> bool, after: Path -> bool, physical: Path -> Path, inodeOf: Path -> Option<Inode>, notices: seq<Notice>)
    requires IndexOk(s) && AreAnswered(s, before, physical) && AllAreTold(s, before, after, notices)
    ensures RestIsCurrent(Forgotten(s, notices), DiskOf(after, physical, inodeOf), Suspect(s, notices)) <==>
            forall p :: !IsMissed(s, before, after, physical, notices, p)
  {
    hide Forgotten, Depends, IsInside, MarkedOf, IndexOk;
    ForgottenIsPart(s, notices);
    AllToldAreMarked(s, before, after, notices);
    var u, changed := Forgotten(s, notices), Suspect(s, notices);
    forall p <- u.directories | !Depends(u, changed, p)
      ensures u.directories[p].root == FindRoot(after, physical(p)) <==> !IsMissed(s, before, after, physical, notices, p)
    {
      var was, now := FindRoot(before, physical(p)), FindRoot(after, physical(p));
      FoundIsMarked(before, physical(p));
      FoundIsMarked(after, physical(p));
      if Overflow in notices {
        OwnDepends(u, changed, p);
      } else {
        if was.Some? && !after(was.value) {
          NamedDepends(u, changed, p, was.value);
        }
        if now.None? || before(now.value) {
          RootStays(before, after, physical(p));
        }
      }
    }
  }

  lemma OwnDepends(s: Engine, changed: set<Path>, p: Path)
    requires p in s.directories && p in changed
    ensures Depends(s, changed, p)
  {
    assert IsInside(p, p);
  }

  lemma NamedDepends(s: Engine, changed: set<Path>, p: Path, root: Path)
    requires p in s.directories && s.directories[p].root == Some(root) && root in changed
    ensures Depends(s, changed, p)
  {
    assert Names(s, p, root);
  }

  /** Under the path it leads to no directory is missed: a mark set above it is set above its name. */
  lemma NoneIsMissed(s: Engine, before: Path -> bool, after: Path -> bool, physical: Path -> Path, notices: seq<Notice>, p: Path)
    requires IndexOk(s) && AllAreTold(s, before, after, notices) && physical(p) == p
    ensures !IsMissed(s, before, after, physical, notices, p)
  {
    hide Forgotten, Depends, IsInside, MarkedOf, IndexOk;
    AllToldAreMarked(s, before, after, notices);
    var u, changed := Forgotten(s, notices), Suspect(s, notices);
    if p in u.directories {
      FoundIsMarked(after, p);
      if Overflow in notices {
        OwnDepends(u, changed, p);
      } else if FindRoot(after, p).Some? && !before(FindRoot(after, p).value) {
        ReachedIsInside(p, FindRoot(after, p).value);
        InsideDepends(u, changed, p, FindRoot(after, p).value);
      }
    }
  }

  lemma InsideDepends(s: Engine, changed: set<Path>, p: Path, dir: Path)
    requires p in s.directories && dir in changed && IsInside(p, dir)
    ensures Depends(s, changed, p)
  {
  }

  /**
    Every answer was what the marks were, marks were set and removed, and their watches told it: once
    that is read every answer is what the marks are, if no link is missed; and with room for the
    roots that are asked for, only then.
  */
  lemma MarksAreReadIff(s: Engine, before: Path -> bool, after: Path -> bool, physical: Path -> Path, inodeOf: Path -> Option<Inode>, notices: seq<Notice>, roots: seq<Path>)
    requires Base(s) && Resolves(physical) && AreAnswered(s, before, physical) && AllAreTold(s, before, after, notices)
    requires AreRootsOf(s, DiskOf(after, physical, inodeOf), notices, roots)
    ensures (forall p :: !IsMissed(s, before, after, physical, notices, p)) ==> AreAnswered(ReadAll(s, DiskOf(after, physical, inodeOf), notices, roots), after, physical)
    ensures |Forgotten(s, notices).directories| + |roots| <= s.limit && AreAnswered(ReadAll(s, DiskOf(after, physical, inodeOf), notices, roots), after, physical) ==>
              forall p :: !IsMissed(s, before, after, physical, notices, p)
  {
    hide *;
    var disk, u, changed := DiskOf(after, physical, inodeOf), Forgotten(s, notices), Suspect(s, notices);
    ReadAllIs(s, disk, notices, roots);
    DiskIsSound(after, physical, inodeOf);
    RestIsCurrentIff(s, before, after, physical, inodeOf, notices);
    CurrentIs(ReadAll(s, disk, notices, roots), after, physical, inodeOf);
    if RestIsCurrent(u, disk, changed) {
      ResolveIsCurrent(u, disk, changed, roots);
    } else if |u.directories| + |roots| <= s.limit {
      StaleStays(u, disk, changed, roots);
    }
  }

  lemma ReadAllIs(s: Engine, disk: Disk, notices: seq<Notice>, roots: seq<Path>)
    requires Base(s)
    ensures var u := Forgotten(s, notices);
            IndexOk(s) && s.limit > 0 && u.limit == s.limit && ReadAll(s, disk, notices, roots) == ResolveAgain(u, disk, Suspect(s, notices), roots)
  {
    hide Forgotten, Suspect, ResolveAgain, IndexOk, KernelOk, UsesBut;
    ForgottenIsBase(s, notices);
  }

  lemma CurrentIs(s: Engine, isMarked: Path -> bool, physical: Path -> Path, inodeOf: Path -> Option<Inode>)
    ensures Current(s, DiskOf(isMarked, physical, inodeOf)) <==> AreAnswered(s, isMarked, physical)
  {
  }

  lemma StaleStays(u: Engine, disk: Disk, changed: set<Path>, roots: seq<Path>)
    requires u.limit > 0 && !RestIsCurrent(u, disk, changed) && |u.directories| + |roots| <= u.limit
    ensures !Current(ResolveAgain(u, disk, changed, roots), disk)
  {
    hide Depends, AskRoots;
    var w, read := WorkedOut(u, disk, changed), ResolveAgain(u, disk, changed, roots);
    WorkedOutSize(u, disk, changed);
    AskRootsWithRoom(w, disk, roots);
    var p :| p in u.directories && !Depends(u, changed, p) && u.directories[p].root != disk.rootOf(p);
    assert read.directories[p].root == w.directories[p].root == u.directories[p].root;
  }

  /** Where every cached directory is cached by the path it leads to, every answer is what the marks are. */
  lemma MarksAreRead(s: Engine, before: Path -> bool, after: Path -> bool, physical: Path -> Path, inodeOf: Path -> Option<Inode>, notices: seq<Notice>, roots: seq<Path>)
    requires Base(s) && Resolves(physical) && AreAnswered(s, before, physical) && AllAreTold(s, before, after, notices)
    requires AreRootsOf(s, DiskOf(after, physical, inodeOf), notices, roots)
    requires forall p <- s.directories :: physical(p) == p
    ensures AreAnswered(ReadAll(s, DiskOf(after, physical, inodeOf), notices, roots), after, physical)
  {
    hide IsMissed, Forgotten, AreTheRoots, ReadAll, IndexOk, KernelOk, UsesBut, Resolves, AllAreTold, AreAnswered;
    ForgottenIsPart(s, notices);
    forall p
      ensures !IsMissed(s, before, after, physical, notices, p)
    {
      if p in s.directories {
        NoneIsMissed(s, before, after, physical, notices, p);
      } else {
        MissedIsCached(s, before, after, physical, notices, p);
      }
    }
    MarksAreReadIff(s, before, after, physical, inodeOf, notices, roots);
  }

  lemma MissedIsCached(s: Engine, before: Path -> bool, after: Path -> bool, physical: Path -> Path, notices: seq<Notice>, p: Path)
    ensures IsMissed(s, before, after, physical, notices, p) ==> p in Forgotten(s, notices).directories
  {
  }

  // ---------------------------------------------------------------- directories that left

  /** The watch of the directory told that it left. */
  ghost predicate HasLeft(s: Engine, notices: seq<Notice>, dir: Path) {
    dir in s.directories && Gone(s.directories[dir].watch) in notices
  }

  /** The path is the directory's, or goes on behind it with a slash. */
  ghost predicate IsUnder(path: Path, dir: Path) {
    exists rest: string :: path == dir + rest && (rest == "" || rest[0] == '/' || (dir != "" && dir[|dir| - 1] == '/'))
  }

  lemma UnderIff(path: Path, dir: Path)
    ensures IsUnder(path, dir) <==> IsInside(path, dir)
  {
    if IsInside(path, dir) {
      assert path == dir + path[|dir|..];
      if path != dir && !(dir != "" && dir[|dir| - 1] == '/') {
        assert path[|dir|] == (dir + "/")[|dir|];
      }
    }
    if rest :| path == dir + rest && (rest == "" || rest[0] == '/' || (dir != "" && dir[|dir| - 1] == '/')) {
      assert path[..|dir|] == dir;
      if rest != "" && rest[0] == '/' {
        assert path[..|dir| + 1] == dir + "/";
      }
    }
  }

  /** It is under the directory, or its root is, when that is one by its own answer. */
  ghost predicate LeavesWith(s: Engine, p: Path, dir: Path)
    requires p in s.directories
  {
    || IsUnder(p, dir)
    || (s.directories[p].root.Some?
        && var root := s.directories[p].root.value;
           root == dir || (root in s.directories && s.directories[root].root == Some(root) && IsUnder(root, dir)))
  }

  /** When directories left, exactly these are forgotten, and the others stay as they were. */
  lemma ForgottenIff(s: Engine, notices: seq<Notice>, p: Path)
    requires IndexOk(s)
    ensures var u := Forgotten(s, notices);
            && (p in u.directories <==> p in s.directories && forall dir :: HasLeft(s, notices, dir) ==> !LeavesWith(s, p, dir))
            && (p in u.directories ==> u.directories[p] == s.directories[p])
  {
    hide *;
    ForgottenAre(s, notices);
    GoneAre(s, notices);
    if p in s.directories {
      LeavesIff(s, GoneOf(s, notices), p);
    }
  }

  lemma ForgottenAre(s: Engine, notices: seq<Notice>)
    ensures Forgotten(s, notices).directories == s.directories - GoneWithAll(s, Doomed(s, GoneOf(s, notices)))
  {
    ForgetTreesNames(s, GoneOf(s, notices));
    hide GoneOf, GoneWithAll, Doomed;
  }

  lemma GoneAre(s: Engine, notices: seq<Notice>)
    requires IndexOk(s)
    ensures forall dir :: dir in GoneOf(s, notices) <==> HasLeft(s, notices, dir)
  {
    hide IndexOk, GoneOf;
    forall dir
      ensures dir in GoneOf(s, notices) <==> HasLeft(s, notices, dir)
    {
      ToldAre(s, notices, dir);
    }
  }

  lemma LeavesIff(s: Engine, gone: set<Path>, p: Path)
    requires p in s.directories
    ensures p in GoneWithAll(s, Doomed(s, gone)) <==> exists dir :: dir in gone && LeavesWith(s, p, dir)
  {
    forall q, dir
      ensures IsUnder(q, dir) <==> IsInside(q, dir)
    {
      UnderIff(q, dir);
    }
    hide IsInside, IsUnder;
    if p in GoneWithAll(s, Doomed(s, gone)) {
      var d :| d in Doomed(s, gone) && p in GoneWith(s, d);
      var dir :| dir in gone && (IsInside(d, dir) || Names(s, d, dir));
      assert LeavesWith(s, p, dir);
    }
    if dir :| dir in gone && LeavesWith(s, p, dir) {
      if IsUnder(p, dir) || s.directories[p].root == Some(dir) {
        assert p in Doomed(s, gone) && p in GoneWith(s, p);
      } else {
        var root := s.directories[p].root.value;
        assert root in Doomed(s, gone) && p in GoneWith(s, root);
      }
    }
  }

  /** Whoever names a directory that left, or whose parents reach it, is forgotten. */
  lemma BelowIsForgotten(s: Engine, notices: seq<Notice>, p: Path, dir: Path)
    requires IndexOk(s) && p in s.directories && HasLeft(s, notices, dir) && (Reaches(p, dir) || s.directories[p].root == Some(dir))
    ensures p !in Forgotten(s, notices).directories
  {
    hide IsInside, IsUnder;
    ForgottenIff(s, notices, p);
    if Reaches(p, dir) {
      ReachedIsInside(p, dir);
      UnderIff(p, dir);
    }
  }
}
