/** Reading what the kernel told: directories that left, marks that changed, and when every answer has its root after it. */
module OverlayReading {
  import opened Wrappers
  import opened Sequences
  import opened OverlayRules
  import opened OverlayInvariant
  import opened OverlayAsking

  // ---------------------------------------------------------------- marks that changed

  /** No other mark changed than those reported: every answer that is not worked out again is what the disk says. */
  ghost predicate RestIsCurrent(s: Engine, disk: Disk, changed: set<Path>) {
    forall p <- s.directories :: !Depends(s, changed, p) ==> s.directories[p].root == disk.rootOf(p)
  }

  ghost predicate Current(s: Engine, disk: Disk) {
    forall p <- s.directories :: s.directories[p].root == disk.rootOf(p)
  }

  /** Every root that is named and cached names no other. */
  ghost predicate RootsNameNoOthers(s: Engine) {
    forall p, root :: p != root && Names(s, p, root) && root in s.directories ==> NamesNoOther(s, root)
  }

  /** Of the answers that stay as they are each has a root that is cached and was used later, or that is asked for. */
  ghost predicate RestIsBacked(s: Engine, changed: set<Path>, roots: seq<Path>) {
    forall p, root :: p != root && Names(s, p, root) && !Depends(s, changed, p) ==>
      if root in s.directories then s.directories[p].lastUse < s.directories[root].lastUse else root in roots
  }

  lemma WorkedOutKeeps(s: Engine, disk: Disk, changed: set<Path>, roots: seq<Path>)
    requires Base(s) && AreTheRoots(s, disk, changed, roots) && RestIsBacked(s, changed, roots) && RootsNameNoOthers(WorkedOut(s, disk, changed))
    ensures var u := WorkedOut(s, disk, changed);
            Mid(u, SetOf(roots)) && |u.directories| == |s.directories| && u.limit == s.limit
  {
    var u := WorkedOut(s, disk, changed);
    WorkedOutIndex(s, u);
    WorkedOutSize(s, disk, changed);
    hide IndexOk, KernelOk, Depends, UsesBut;
    forall p, root | p != root && Names(u, p, root)
      ensures Backed(u, p, root) || ToBeAsked(u, root, SetOf(roots))
    {
      if Depends(s, changed, p) {
        assert disk.rootOf(p) == Some(root) && root in RootsNamed(s, disk, changed);
      } else {
        assert Names(s, p, root);
      }
    }
  }

  /** When no other mark changed, every answer is what the disk says, and so every root names itself. */
  lemma CurrentRoots(s: Engine, disk: Disk, changed: set<Path>)
    requires disk.Sound() && RestIsCurrent(s, disk, changed)
    ensures Current(WorkedOut(s, disk, changed), disk) && RootsNameNoOthers(WorkedOut(s, disk, changed))
  {
    var u := WorkedOut(s, disk, changed);
    assert Current(u, disk);
    hide WorkedOut, Depends;
    forall p, root | p != root && Names(u, p, root) && root in u.directories
      ensures NamesNoOther(u, root)
    {
      assert disk.rootOf(p) == Some(root) && disk.rootOf(root) == Some(root);
    }
  }

  lemma WorkedOutIndex(s: Engine, u: Engine)
    requires IndexOk(s) && KernelOk(s) && UsesBut(s, {}) && u == s.(directories := u.directories) && u.directories.Keys == s.directories.Keys
    requires forall p <- s.directories :: u.directories[p].watch == s.directories[p].watch && u.directories[p].lastUse == s.directories[p].lastUse
    ensures IndexOk(u) && KernelOk(u) && UsesBut(u, {})
  {
    SameKernel(s, u);
    hide NoDuplicates, KernelOk;
  }

  lemma WorkedOutKeepsBase(s: Engine, disk: Disk, changed: set<Path>)
    requires Base(s)
    ensures Base(WorkedOut(s, disk, changed))
  {
    WorkedOutIndex(s, WorkedOut(s, disk, changed));
    hide IndexOk, KernelOk;
  }

  lemma AskRootIsCurrent(s: Engine, disk: Disk, root: Path)
    requires Current(s, disk) && s.limit > 0
    ensures Current(AskRoot(s, disk, root).0, disk)
  {
    hide MakeRoom, Use, Insert;
    if root in s.directories {
      UseRoots(s, root);
      UseNames(s, root);
    } else {
      RoomIsCurrent(s, disk);
      var room := MakeRoom(s);
      if disk.inodeOf(root).Some? {
        var u := Insert(room, root, disk.inodeOf(root).value, disk.rootOf(root));
        InsertIsCurrent(room, disk, root);
        UseRoots(u, root);
        UseNames(u, root);
      }
    }
  }

  lemma InsertIsCurrent(s: Engine, disk: Disk, dir: Path)
    requires Current(s, disk) && disk.inodeOf(dir).Some?
    ensures Current(Insert(s, dir, disk.inodeOf(dir).value, disk.rootOf(dir)), disk) && dir in Insert(s, dir, disk.inodeOf(dir).value, disk.rootOf(dir)).directories
  {
  }

  lemma {:induction false} RoomIsCurrent(s: Engine, disk: Disk)
    requires Current(s, disk) && s.limit > 0
    ensures Current(MakeRoom(s), disk)
    decreases |s.directories|
  {
    if |s.directories| >= s.limit {
      ForgetIsLess(s, Oldest(s));
      RoomIsCurrent(Forget(s, Oldest(s)), disk);
    }
  }

  /** Each of the roots, when it is asked for, is cached or can be watched. */
  ghost predicate EachComes(s: Engine, disk: Disk, roots: seq<Path>)
    requires s.limit > 0
  {
    roots == [] ||
    var before, last := roots[..|roots| - 1], roots[|roots| - 1];
    EachComes(s, disk, before) && (last in AskRoots(s, disk, before).directories || disk.inodeOf(last).Some?)
  }

  lemma {:induction false} AskRootsKeeps(s: Engine, disk: Disk, roots: seq<Path>, pending: set<Path>)
    requires Mid(s, pending) && 2 <= s.limit && |s.directories| <= s.limit
    requires EachComes(s, disk, roots) && forall r <- roots :: disk.rootOf(r) == Some(r)
    ensures var u := AskRoots(s, disk, roots);
            Mid(u, pending - SetOf(roots)) && |u.directories| <= u.limit && u.limit == s.limit
  {
    hide Mid, AskRoot, SetOf;
    if roots == [] {
      PendingLess(pending, roots);
    } else {
      var before, last := roots[..|roots| - 1], roots[|roots| - 1];
      assert forall r <- before :: r in roots;
      AskRootsKeeps(s, disk, before, pending);
      AskRootKeeps(AskRoots(s, disk, before), disk, last, pending - SetOf(before));
      PendingLess(pending, roots);
    }
  }

  lemma PendingLess(pending: set<Path>, roots: seq<Path>)
    ensures pending - SetOf(roots) == if roots == [] then pending else pending - SetOf(roots[..|roots| - 1]) - {roots[|roots| - 1]}
  {
    if roots != [] {
      assert roots == roots[..|roots| - 1] + [roots[|roots| - 1]];
    }
  }

  lemma {:induction false} AskRootsAreCurrent(s: Engine, disk: Disk, roots: seq<Path>)
    requires Current(s, disk) && s.limit > 0
    ensures Current(AskRoots(s, disk, roots), disk)
  {
    hide Current, AskRoot;
    if roots != [] {
      AskRootsAreCurrent(s, disk, roots[..|roots| - 1]);
      AskRootIsCurrent(AskRoots(s, disk, roots[..|roots| - 1]), disk, roots[|roots| - 1]);
    }
  }

  /** The roots that the answers name then, in the order their table gives them. */
  ghost predicate AreTheRoots(s: Engine, disk: Disk, changed: set<Path>, roots: seq<Path>) {
    SetOf(roots) == RootsNamed(s, disk, changed)
  }

  lemma RootsAreRoots(s: Engine, disk: Disk, changed: set<Path>, roots: seq<Path>)
    requires disk.Sound() && AreTheRoots(s, disk, changed, roots)
    ensures forall r <- roots :: disk.rootOf(r) == Some(r)
  {
    forall r <- roots
      ensures disk.rootOf(r) == Some(r)
    {
      assert r in SetOf(roots);
    }
  }

  /** The answers that may have changed are worked out again, of a cache in which those alone may have lost their root. */
  lemma ResolveKeeps(s: Engine, disk: Disk, changed: set<Path>, roots: seq<Path>)
    requires Base(s) && |s.directories| <= s.limit && disk.Sound() && AreTheRoots(s, disk, changed, roots)
    requires RestIsBacked(s, changed, roots) && RootsNameNoOthers(WorkedOut(s, disk, changed)) && EachComes(WorkedOut(s, disk, changed), disk, roots)
    ensures Inv(ResolveAgain(s, disk, changed, roots))
  {
    hide Mid, WorkedOut, AskRoots, RootsNamed, RootsNameNoOthers, AreTheRoots, EachComes, RestIsBacked, IndexOk, KernelOk, UsesBut;
    WorkedOutKeeps(s, disk, changed, roots);
    RootsAreRoots(s, disk, changed, roots);
    AskRootsKeeps(WorkedOut(s, disk, changed), disk, roots, SetOf(roots));
    assert SetOf(roots) - SetOf(roots) == {};
  }

  lemma ResolveIsCurrent(s: Engine, disk: Disk, changed: set<Path>, roots: seq<Path>)
    requires s.limit > 0 && disk.Sound() && RestIsCurrent(s, disk, changed)
    ensures Current(ResolveAgain(s, disk, changed, roots), disk)
  {
    hide WorkedOut, AskRoots, RootsNameNoOthers, Current, RestIsCurrent;
    CurrentRoots(s, disk, changed);
    WorkedOutSize(s, disk, changed);
    AskRootsAreCurrent(WorkedOut(s, disk, changed), disk, roots);
  }

  /** With room for the root nobody goes, and every answer stays. */
  lemma AskRootWithRoom(s: Engine, disk: Disk, root: Path)
    requires s.limit > 0 && (root in s.directories || |s.directories| < s.limit)
    ensures var u := AskRoot(s, disk, root).0;
            && |u.directories| <= |s.directories| + 1
            && forall p <- s.directories :: p in u.directories && u.directories[p].root == s.directories[p].root
  {
    hide Use, Insert, Names, NamesNoOther, MakeRoom;
    if root in s.directories {
      UseRoots(s, root);
      UseNames(s, root);
      SameSize(s.directories, Use(s, root).directories);
    } else {
      ThereIsRoom(s);
      if disk.inodeOf(root).Some? {
        InsertWithRoom(s, root, disk.inodeOf(root).value, disk.rootOf(root));
      }
    }
  }

  lemma InsertWithRoom(s: Engine, dir: Path, inode: Inode, root: Option<Path>)
    requires dir !in s.directories
    ensures dir in Insert(s, dir, inode, root).directories
    ensures var u := Use(Insert(s, dir, inode, root), dir);
            && |u.directories| == |s.directories| + 1
            && forall p <- s.directories :: p in u.directories && u.directories[p].root == s.directories[p].root
  {
    hide Use, Insert, Names;
    InsertRoots(s, dir, inode, root);
    InsertedIs(s, dir, inode, root);
    UseRoots(Insert(s, dir, inode, root), dir);
  }

  lemma ThereIsRoom(s: Engine)
    requires s.limit > 0 && |s.directories| < s.limit
    ensures MakeRoom(s) == s
  {
  }

  lemma {:induction false} AskRootsWithRoom(s: Engine, disk: Disk, roots: seq<Path>)
    requires s.limit > 0 && |s.directories| + |roots| <= s.limit
    ensures var u := AskRoots(s, disk, roots);
            && |u.directories| <= |s.directories| + |roots|
            && forall p <- s.directories :: p in u.directories && u.directories[p].root == s.directories[p].root
  {
    hide AskRoot;
    if roots != [] {
      AskRootsWithRoom(s, disk, roots[..|roots| - 1]);
      AskRootWithRoom(AskRoots(s, disk, roots[..|roots| - 1]), disk, roots[|roots| - 1]);
    }
  }

  /** With room a root comes into the cache only when it can be watched, and no other comes with it. */
  lemma AskRootBrings(s: Engine, disk: Disk, root: Path, other: Path)
    requires s.limit > 0 && (root in s.directories || |s.directories| < s.limit)
    ensures var u := AskRoot(s, disk, root).0;
            other in u.directories <==> other in s.directories || (other == root && disk.inodeOf(root).Some?)
  {
    hide Use, Insert, Names, NamesNoOther, MakeRoom;
    if root in s.directories {
      UseNames(s, root);
    } else {
      ThereIsRoom(s);
      if disk.inodeOf(root).Some? {
        InsertRoots(s, root, disk.inodeOf(root).value, disk.rootOf(root));
        InsertedIs(s, root, disk.inodeOf(root).value, disk.rootOf(root));
      }
    }
  }

  lemma {:induction false} AskRootsBring(s: Engine, disk: Disk, roots: seq<Path>, other: Path)
    requires s.limit > 0 && |s.directories| + |roots| <= s.limit
    ensures other in AskRoots(s, disk, roots).directories <==> other in s.directories || (other in roots && disk.inodeOf(other).Some?)
  {
    hide AskRoot;
    if roots != [] {
      var before, last := roots[..|roots| - 1], roots[|roots| - 1];
      assert roots == before + [last];
      AskRootsWithRoom(s, disk, before);
      AskRootsBring(s, disk, before, other);
      AskRootBrings(AskRoots(s, disk, before), disk, last, other);
    }
  }

  /** With room for all of them each comes exactly when it is cached to begin with, or can be watched. */
  lemma {:induction false} EachComesIff(s: Engine, disk: Disk, roots: seq<Path>)
    requires s.limit > 0 && |s.directories| + |roots| <= s.limit
    ensures EachComes(s, disk, roots) <==> forall r <- roots :: r in s.directories || disk.inodeOf(r).Some?
  {
    hide AskRoots;
    if roots != [] {
      var before, last := roots[..|roots| - 1], roots[|roots| - 1];
      assert roots == before + [last];
      EachComesIff(s, disk, before);
      AskRootsBring(s, disk, before, last);
    }
  }

  lemma WorkedOutSize(s: Engine, disk: Disk, changed: set<Path>)
    ensures var w := WorkedOut(s, disk, changed);
            w.directories.Keys == s.directories.Keys && |w.directories| == |s.directories| && w.limit == s.limit
  {
    SameSize(s.directories, WorkedOut(s, disk, changed).directories);
    hide Depends;
  }

  lemma StaleRootStays(w: Engine, u: Engine)
    requires !RootsNameNoOthers(w)
    requires forall p <- w.directories :: p in u.directories && u.directories[p].root == w.directories[p].root
    ensures !Inv(u)
  {
    hide IndexOk, KernelOk, UsesBut;
    var p, root :| p != root && Names(w, p, root) && root in w.directories && !NamesNoOther(w, root);
    assert Names(u, p, root) && !NamesNoOther(u, root);
    assert Inv(u) ==> Backed(u, p, root);
  }

  lemma NamedBy(s: Engine, disk: Disk, changed: set<Path>, roots: seq<Path>, r: Path) returns (p: Path)
    requires AreTheRoots(s, disk, changed, roots) && r in roots
    ensures p != r && Names(WorkedOut(s, disk, changed), p, r)
  {
    hide Depends;
    assert r in SetOf(roots);
    p :| p in s.directories && Depends(s, changed, p) && disk.rootOf(p) == Some(r) && r != p;
  }

  lemma MissingRoot(w: Engine, u: Engine, p: Path, root: Path)
    requires p != root && Names(w, p, root) && root !in u.directories
    requires forall q <- w.directories :: q in u.directories && u.directories[q].root == w.directories[q].root
    ensures !Inv(u)
  {
    hide IndexOk, KernelOk, UsesBut;
    assert Names(u, p, root);
    assert Inv(u) ==> Backed(u, p, root);
  }

  // ---------------------------------------------------------------- what was told is read

  /** The notices' directories are forgotten first: whoever is left behind is worked out again, or its root is asked for anyway. */
  ghost predicate LeftAreAsked(s: Engine, notices: seq<Notice>, roots: seq<Path>) {
    forall p, root :: IsLeftBehind(s, GoneOf(s, notices), p, root) ==> Depends(Forgotten(s, notices), Suspect(s, notices), p) || root in roots
  }

  /** The cache when the answers are worked out again and their roots not asked for yet. */
  function WorkedOutOf(s: Engine, disk: Disk, notices: seq<Notice>): Engine {
    WorkedOut(Forgotten(s, notices), disk, Suspect(s, notices))
  }

  ghost predicate AreRootsOf(s: Engine, disk: Disk, notices: seq<Notice>, roots: seq<Path>) {
    AreTheRoots(Forgotten(s, notices), disk, Suspect(s, notices), roots)
  }

  /**
    Every answer will have its root: whoever is left behind is asked, each root that is named
    and cached names no other, and each that is asked for comes into the cache.
  */
  ghost predicate WillAllBeBacked(s: Engine, disk: Disk, notices: seq<Notice>, roots: seq<Path>)
    requires s.limit > 0
  {
    && LeftAreAsked(s, notices, roots) && RootsNameNoOthers(WorkedOutOf(s, disk, notices))
    && EachComes(WorkedOutOf(s, disk, notices), disk, roots)
  }

  lemma ForgottenIsBase(s: Engine, notices: seq<Notice>)
    requires Base(s)
    ensures var u := Forgotten(s, notices); Base(u) && u.limit == s.limit && |u.directories| <= |s.directories|
  {
    var dirs := GoneOf(s, notices);
    DropKeepsBase(s, GoneWithAll(s, Doomed(s, dirs)));
    ForgetTreesNames(s, dirs);
    hide Drop, IndexOk, KernelOk, UsesBut;
  }

  /** What is not worked out again is backed, or its root is asked for. */
  lemma ForgottenIsBacked(s: Engine, notices: seq<Notice>, roots: seq<Path>)
    requires Inv(s)
    ensures LeftAreAsked(s, notices, roots) <==> RestIsBacked(Forgotten(s, notices), Suspect(s, notices), roots)
  {
    var u, dirs, changed := Forgotten(s, notices), GoneOf(s, notices), Suspect(s, notices);
    ForgetTreesNames(s, dirs);
    hide Depends, Doomed, GoneWithAll, Drop, IndexOk, KernelOk, UsesBut, IsLeftBehind, GoneOf, Suspect;
    forall p, root | p != root
      ensures Names(u, p, root) && root !in u.directories <==> IsLeftBehind(s, dirs, p, root)
      ensures Names(u, p, root) && root in u.directories ==> u.directories[p].lastUse < u.directories[root].lastUse
    {
      LeftBehindIff(s, dirs, p, root);
      assert Names(u, p, root) ==> Names(s, p, root);
      assert Names(s, p, root) ==> Backed(s, p, root);
    }
    forall p, root
      ensures IsLeftBehind(s, dirs, p, root) ==> p != root
    {
      if IsLeftBehind(s, dirs, p, root) {
        LeftNamesAnother(s, dirs, p, root);
      }
    }
  }

  /**
    All that was told is read in one call, whatever other marks are set and not told yet: what
    left is forgotten, and the answers that a mark told may change are worked out again.
  */
  lemma ReadKeeps(s: Engine, disk: Disk, notices: seq<Notice>, roots: seq<Path>)
    requires Inv(s) && disk.Sound() && AreRootsOf(s, disk, notices, roots) && WillAllBeBacked(s, disk, notices, roots)
    ensures Inv(ReadAll(s, disk, notices, roots))
  {
    hide AreTheRoots, LeftAreAsked, RootsNameNoOthers, EachComes, RestIsBacked, Forgotten, Suspect, ResolveAgain, IndexOk, KernelOk, UsesBut;
    ForgottenIsBase(s, notices);
    ForgottenIsBacked(s, notices, roots);
    ResolveKeeps(Forgotten(s, notices), disk, Suspect(s, notices), roots);
  }

  /**
    While there is room for the roots that are asked for: the cache is as it should be, and goes
    on as promised whatever is asked next, if and only if whoever is left behind is asked, each
    root named then and cached names no other, and each that is not cached can be watched.
  */
  lemma ReadKeepsIff(s: Engine, disk: Disk, notices: seq<Notice>, roots: seq<Path>)
    requires Inv(s) && disk.Sound() && AreRootsOf(s, disk, notices, roots) && |Forgotten(s, notices).directories| + |roots| <= s.limit
    ensures var u := ReadAll(s, disk, notices, roots);
            && (Inv(u) <==> IsKeptOn(u))
            && (Inv(u) <==>
                && LeftAreAsked(s, notices, roots) && RootsNameNoOthers(WorkedOutOf(s, disk, notices))
                && forall r <- roots :: r in Forgotten(s, notices).directories || disk.inodeOf(r).Some?)
  {
    hide AskRoots, EachComes, WorkedOut, RootsNameNoOthers, AreTheRoots, Names, NamesNoOther, LeftAreAsked, RestIsBacked, Forgotten, Suspect,
         IndexOk, KernelOk, UsesBut, IsKeptOn, Rooted;
    var v, changed := Forgotten(s, notices), Suspect(s, notices);
    var w, u := WorkedOut(v, disk, changed), ReadAll(s, disk, notices, roots);
    ForgottenIsBase(s, notices);
    ForgottenIsBacked(s, notices, roots);
    WorkedOutSize(v, disk, changed);
    EachComesIff(w, disk, roots);
    AskRootsWithRoom(w, disk, roots);
    InvIff(u);
    if !RootsNameNoOthers(w) {
      StaleRootStays(w, u);
    } else if r :| r in roots && r !in v.directories && disk.inodeOf(r).None? {
      var p := NamedBy(v, disk, changed, roots, r);
      AskRootsBring(w, disk, roots, r);
      MissingRoot(w, u, p, r);
    } else if !LeftAreAsked(s, notices, roots) {
      var p, root := LeftAlone(s, disk, notices, roots);
      AskRootsBring(w, disk, roots, root);
      MissingRoot(w, u, p, root);
    } else {
      ReadKeeps(s, disk, notices, roots);
    }
  }

  lemma LeftAlone(s: Engine, disk: Disk, notices: seq<Notice>, roots: seq<Path>) returns (p: Path, root: Path)
    requires Inv(s) && !LeftAreAsked(s, notices, roots)
    ensures p != root && root !in roots && Names(WorkedOutOf(s, disk, notices), p, root) && root !in WorkedOutOf(s, disk, notices).directories
  {
    hide Depends, IndexOk, KernelOk, UsesBut, GoneOf, Forgotten, Suspect;
    var dirs := GoneOf(s, notices);
    p, root :| IsLeftBehind(s, dirs, p, root) && !Depends(Forgotten(s, notices), Suspect(s, notices), p) && root !in roots;
    LeftNamesAnother(s, dirs, p, root);
    ForgottenIs(s, notices);
    LeftBehindIff(s, dirs, p, root);
  }

  lemma ForgottenIs(s: Engine, notices: seq<Notice>)
    ensures Forgotten(s, notices) == ForgetTrees(s, GoneOf(s, notices))
  {
  }

  /** When no other mark changed than those told, every answer is what the disk says besides. */
  lemma ReadIsCurrent(s: Engine, disk: Disk, notices: seq<Notice>, roots: seq<Path>)
    requires Inv(s) && disk.Sound() && AreRootsOf(s, disk, notices, roots) && RestIsCurrent(Forgotten(s, notices), disk, Suspect(s, notices))
    ensures Current(ReadAll(s, disk, notices, roots), disk)
    ensures LeftAreAsked(s, notices, roots) && EachComes(WorkedOutOf(s, disk, notices), disk, roots) ==> Inv(ReadAll(s, disk, notices, roots))
  {
    hide AreTheRoots, LeftAreAsked, RootsNameNoOthers, EachComes, RestIsCurrent, Current, Forgotten, Suspect, ResolveAgain, WorkedOut, IndexOk, KernelOk, UsesBut, Rooted;
    ForgottenIsBase(s, notices);
    ResolveIsCurrent(Forgotten(s, notices), disk, Suspect(s, notices), roots);
    CurrentRoots(Forgotten(s, notices), disk, Suspect(s, notices));
    WorkedOutSize(Forgotten(s, notices), disk, Suspect(s, notices));
    if LeftAreAsked(s, notices, roots) && EachComes(WorkedOutOf(s, disk, notices), disk, roots) {
      ReadKeeps(s, disk, notices, roots);
    }
  }

  /** When some was not told every answer is worked out again, and so nothing that was wrong before stays wrong. */
  lemma OverflowRepairs(s: Engine, disk: Disk, notices: seq<Notice>, roots: seq<Path>)
    requires Bounded(s) && disk.Sound() && Overflow in notices && AreRootsOf(s, disk, notices, roots)
    ensures Current(ReadAll(s, disk, notices, roots), disk)
    ensures EachComes(WorkedOutOf(s, disk, notices), disk, roots) ==> Inv(ReadAll(s, disk, notices, roots))
  {
    hide AreTheRoots, RootsNameNoOthers, EachComes, RestIsCurrent, RestIsBacked, Current, Forgotten, WorkedOut, ResolveAgain, IndexOk, KernelOk, UsesBut, Rooted;
    var u := Forgotten(s, notices);
    ForgottenIsBase(s, notices);
    AllDepend(u, disk, roots);
    ResolveIsCurrent(u, disk, u.directories.Keys, roots);
    CurrentRoots(u, disk, u.directories.Keys);
    WorkedOutSize(u, disk, u.directories.Keys);
    if EachComes(WorkedOutOf(s, disk, notices), disk, roots) {
      ResolveKeeps(u, disk, u.directories.Keys, roots);
    }
  }

  lemma AllDepend(s: Engine, disk: Disk, roots: seq<Path>)
    ensures RestIsCurrent(s, disk, s.directories.Keys) && RestIsBacked(s, s.directories.Keys, roots)
  {
    forall p <- s.directories
      ensures Depends(s, s.directories.Keys, p)
    {
      assert IsInside(p, p);
    }
    hide Depends;
  }
}
