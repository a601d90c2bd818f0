/** The overlay plugin's engine: its cache changes in place as Dolphin asks and directories change. */
module Overlay {
  import opened Wrappers
  import opened OverlayRules
  import opened OverlayInvariant
  import opened OverlayAsking
  import opened OverlayReading
  import opened OverlayRuns

  class OverlayEngine {
    const limit: nat
    var directories: map<Path, Directory>
    var pathsByWatch: map<Watch, seq<Path>>
    var clock: nat
    /** The watches the kernel holds for the engine, and the number it gives next. */
    var kernel: map<Inode, Watch>
    var nextWatch: nat

    function State(): Engine
      reads this
    {
      Engine(limit, directories, pathsByWatch, clock, kernel, nextWatch)
    }

    constructor (directoryLimit: nat)
      ensures State() == New(directoryLimit) && Inv(State()) && Base(State())
    {
      limit := if directoryLimit < 2 then 2 else directoryLimit;
      directories, pathsByWatch, clock, kernel, nextWatch := map[], map[], 0, map[], 0;
      new;
      NewIsOk(directoryLimit);
      InvIsBase(State());
    }

    method UseNow(dir: Path)
      requires dir in directories
      modifies this`directories, this`clock
      ensures State() == Use(old(State()), dir)
    {
      clock := clock + 1;
      directories := directories[dir := directories[dir].(lastUse := clock)];
      var root := directories[dir].root;
      if root.Some? && root.value in directories && root.value != dir {
        clock := clock + 1;
        directories := directories[root.value := directories[root.value].(lastUse := clock)];
      }
    }

    /** One directory goes, and its watch when nobody else has it. */
    method Erase(dir: Path)
      requires dir in directories && Base(State())
      modifies this`directories, this`pathsByWatch, this`kernel
      ensures State() == Drop(old(State()), {dir}) && Base(State())
    {
      DropOne(State(), dir);
      DropKeepsBase(State(), {dir});
      hide Base, Drop, Without;
      var watch := directories[dir].watch;
      directories := directories - {dir};
      if watch in pathsByWatch {
        var left := Without(pathsByWatch[watch], {dir});
        if left == [] {
          pathsByWatch := pathsByWatch - {watch};
          kernel := map i | i in kernel && kernel[i] != watch :: kernel[i];
        } else {
          pathsByWatch := pathsByWatch[watch := left];
        }
      }
    }

    /** A directory goes, and when it is a root every directory that names it: forgetting ends. */
    method ForgetDirectory(dir: Path)
      requires Base(State())
      modifies this`directories, this`pathsByWatch, this`kernel
      ensures State() == Forget(old(State()), dir) && Base(State())
      decreases |directories|, 0
    {
      hide Base, Drop, Forget, GoneWith, Names;
      ghost var was := State();
      if dir !in directories {
        NothingGoes(was, dir);
        return;
      }
      var isRoot := directories[dir].root == Some(dir);
      Erase(dir);
      if !isRoot {
        OnlyItGoes(was, dir);
        return;
      }
      var dependents := set p | p in directories && directories[p].root == Some(dir);
      GoneIs(was, dir);
      FewerAfter(was, {dir}, dir);
      ForgetDependents(dependents, dir, was);
      ForgetIsDrop(was, dir);
    }

    /** The directories that name a root that went. */
    method ForgetDependents(dependents: set<Path>, dir: Path, ghost was: Engine)
      requires Base(State()) && State() == Drop(was, {dir}) && |directories| < |was.directories|
      requires dir !in dependents && forall p <- dependents :: Names(was, p, dir)
      modifies this`directories, this`pathsByWatch, this`kernel
      ensures State() == Drop(was, {dir} + dependents) && Base(State())
      decreases |was.directories| - 1, 1
    {
      hide Base, Drop, Forget, GoneWith, Names, Taken;
      var rest := dependents;
      NothingTaken(dir, dependents);
      while rest != {}
        invariant rest <= dependents && State() == Drop(was, Taken(dir, dependents, rest)) && Base(State()) && |directories| < |was.directories|
        decreases rest
      {
        var path :| path in rest;
        OneMoreTaken(dir, dependents, rest, path);
        DependentGoes(was, Taken(dir, dependents, rest), path, dir);
        FewerAfter(was, Taken(dir, dependents, rest - {path}), path);
        ForgetDirectory(path);
        rest := rest - {path};
      }
      AllTaken(dir, dependents);
    }

    /** The least recently used, found by one look at each. */
    method FindOldest() returns (oldest: Path)
      requires directories != map[]
      ensures IsOldest(State(), oldest)
    {
      var rest := directories.Keys;
      assert rest != {} by { assert exists p :: p in directories; }
      oldest :| oldest in rest;
      rest := rest - {oldest};
      while rest != {}
        invariant rest <= directories.Keys && oldest in directories
        invariant forall p <- directories :: p !in rest ==> directories[oldest].lastUse <= directories[p].lastUse
        decreases rest
      {
        var path :| path in rest;
        if directories[path].lastUse < directories[oldest].lastUse {
          oldest := path;
        }
        rest := rest - {path};
      }
    }

    method MakeRoomForOne()
      requires Base(State())
      modifies this`directories, this`pathsByWatch, this`kernel
      ensures State() == MakeRoom(old(State())) && Base(State())
    {
      ghost var was := State();
      while |directories| >= limit
        invariant Base(State()) && State().limit == was.limit && MakeRoom(State()) == MakeRoom(was)
        decreases |directories|
      {
        LimitIsTwo(State());
        var oldest := FindOldest();
        OldestIsOne(State(), oldest);
        ForgetIsLess(State(), oldest);
        ForgetDirectory(oldest);
        hide Base, Forget, IsOldest;
      }
    }

    /**
      The cached answer of a directory, made now when there is none and a watch of it is
      granted; false when it is not. The watch comes first, the mark is read after it.
    */
    method DirectoryFor(disk: Disk, dir: Path) returns (isCached: bool)
      requires Base(State()) && disk.Sound()
      modifies this`directories, this`pathsByWatch, this`kernel, this`clock, this`nextWatch
      ensures (State(), isCached) == Ask(old(State()), disk, dir) && Base(State())
      decreases disk.rootOf(dir) != Some(dir)
    {
      hide Base, Use, Insert, MakeRoom;
      ghost var was := State();
      LimitIsTwo(was);
      if dir in directories {
        UseKeepsBase(State(), dir);
        UseNow(dir);
        return true;
      }
      MakeRoomForOne();
      RoomIs(was);
      var inode := disk.inodeOf(dir);
      if inode.None? {
        return false;
      }
      var root := disk.rootOf(dir);
      NotInRoom(was, dir);
      ghost var room := State();
      InsertKeepsBase(State(), dir, inode.value, root);
      InsertHas(State(), dir, inode.value, root);
      InsertNow(dir, inode.value, root);
      UseNow(dir);
      if root.None? || root.value == dir {
        return true;
      }
      ghost var own := State();
      assert disk.rootOf(root.value) == Some(root.value);
      var isRootCached := DirectoryFor(disk, root.value);
      AskOfRoot(own, disk, root.value);
      if dir !in directories {
        return false;
      }
      OwnRoot(room, dir, inode.value, root);
      RootStays(own, disk, root.value, dir);
      ghost var rooted := State();
      assert rooted.directories[dir := rooted.directories[dir].(root := root)] == rooted.directories;
      if !isRootCached || root.value !in directories || directories[root.value].root != root {
        directories := directories[dir := directories[dir].(root := disk.rootOf(dir))];
      }
      UseKeepsBase(State(), dir);
      UseNow(dir);
      return true;
    }

    /** A directory left, or its path leads elsewhere: it goes, with what lies below it and what names it. */
    method ForgetTreeOf(dir: Path)
      requires Base(State())
      modifies this`directories, this`pathsByWatch, this`kernel
      ensures State() == ForgetTrees(old(State()), {dir}) && Base(State())
    {
      hide Base, Drop, Forget, GoneWith, GoneWithAll;
      ghost var was := State();
      var rest := set p | p in directories && (IsInside(p, dir) || directories[p].root == Some(dir));
      DoomedAre(was, dir);
      ghost var done: set<Path> := {};
      NobodyGone(was);
      assert done + rest == Doomed(was, {dir});
      while rest != {}
        invariant done + rest == Doomed(was, {dir})
        invariant State() == Drop(was, GoneWithAll(was, done)) && Base(State())
        decreases rest
      {
        var path :| path in rest;
        OneMoreDoomed(was, done, path);
        ForgetDirectory(path);
        done := done + {path};
        rest := rest - {path};
      }
      assert done == Doomed(was, {dir});
    }

    /** The answers that may depend on these marks are worked out again. */
    method WorkOutAgain(disk: Disk, changed: set<Path>)
      modifies this`directories
      ensures State() == WorkedOut(old(State()), disk, changed)
    {
      ghost var was := State();
      var rest := set p | p in directories && exists dir <- changed :: IsInside(p, dir) || directories[p].root == Some(dir);
      AffectedAre(was, changed);
      ghost var worked := WorkedOut(was, disk, changed);
      hide Depends;
      while rest != {}
        invariant directories.Keys == was.directories.Keys && rest <= directories.Keys
        invariant forall p <- directories :: directories[p] == if p in rest then was.directories[p] else worked.directories[p]
        invariant forall p <- rest :: Depends(was, changed, p)
        decreases rest
      {
        var path :| path in rest;
        directories := directories[path := directories[path].(root := disk.rootOf(path))];
        rest := rest - {path};
      }
      assert directories == worked.directories;
    }

    method AskForRoots(disk: Disk, roots: seq<Path>)
      requires Base(State()) && disk.Sound() && forall k :: 0 <= k < |roots| ==> disk.rootOf(roots[k]) == Some(roots[k])
      modifies this`directories, this`pathsByWatch, this`kernel, this`clock, this`nextWatch
      ensures old(State()).limit > 0 && State() == AskRoots(old(State()), disk, roots) && Base(State())
    {
      hide Base, Ask, AskRoot;
      LimitIsTwo(State());
      ghost var was := State();
      var k := 0;
      while k < |roots|
        invariant 0 <= k <= |roots| && State() == AskRoots(was, disk, roots[..k]) && Base(State())
      {
        LimitIsTwo(State());
        AskOfRoot(State(), disk, roots[k]);
        var _ := DirectoryFor(disk, roots[k]);
        k := k + 1;
        assert roots[..k][..k - 1] == roots[..k - 1];
      }
      assert roots[..k] == roots;
    }

    /** Marks changed: what may depend on them is worked out again, and the roots it names are asked for. */
    method Resolve(disk: Disk, changed: set<Path>, roots: seq<Path>)
      requires Base(State()) && disk.Sound() && AreTheRoots(State(), disk, changed, roots)
      modifies this`directories, this`pathsByWatch, this`kernel, this`clock, this`nextWatch
      ensures old(State()).limit > 0 && State() == ResolveAgain(old(State()), disk, changed, roots) && Base(State())
    {
      hide Base, WorkedOut, AreTheRoots;
      LimitIsTwo(State());
      WorkedOutKeepsBase(State(), disk, changed);
      RootsAreSound(State(), disk, changed, roots);
      WorkOutAgain(disk, changed);
      AskForRoots(disk, roots);
    }

    /**
      All that was told is read in one call: what the watches say is collected first, then what left
      is forgotten, then what a mark told may change is worked out again, or everything when
      some was not told.
    */
    method ReadEvents(disk: Disk, notices: seq<Notice>, roots: seq<Path>)
      requires Base(State()) && disk.Sound() && AreRootsOf(State(), disk, notices, roots)
      modifies this`directories, this`pathsByWatch, this`kernel, this`clock, this`nextWatch
      ensures old(State()).limit > 0 && State() == ReadAll(old(State()), disk, notices, roots) && Base(State())
    {
      hide Base, ForgetTrees, ResolveAgain, GoneOf, MarkedOf, AreTheRoots;
      ghost var was := State();
      LimitIsTwo(was);
      var gone, marksChanged, overflow := CollectTold(notices);
      NoTreeGone(was);
      var k := 0;
      while k < |gone|
        invariant 0 <= k <= |gone| && State() == ForgetTrees(was, SetOf(gone[..k])) && Base(State())
      {
        OneMoreTree(was, SetOf(gone[..k]), gone[k]);
        ForgetTreeOf(gone[k]);
        OneMorePath(gone, k);
        k := k + 1;
      }
      assert gone[..k] == gone;
      ForgottenIs(was, notices);
      ForgottenIsBase(was, notices);
      if overflow {
        Resolve(disk, directories.Keys, roots);
      } else if marksChanged != [] {
        Resolve(disk, (set p | p in marksChanged), roots);
      } else {
        NoRoots(State(), disk, roots);
        NothingIsTold(State(), disk);
      }
    }

    /** The paths of the watches that tell something, as they are before anything is forgotten. */
    method CollectTold(notices: seq<Notice>) returns (gone: seq<Path>, marksChanged: seq<Path>, overflow: bool)
      ensures SetOf(gone) == GoneOf(State(), notices) && SetOf(marksChanged) == MarkedOf(State(), notices)
      ensures overflow <==> Overflow in notices
    {
      gone, marksChanged, overflow := [], [], false;
      var k := 0;
      while k < |notices|
        invariant 0 <= k <= |notices| && (overflow <==> Overflow in notices[..k])
        invariant SetOf(gone) == GoneOf(State(), notices[..k]) && SetOf(marksChanged) == MarkedOf(State(), notices[..k])
      {
        OneMoreTold(State(), notices, k);
        match notices[k] {
          case Overflow => overflow := true;
          case Gone(watch) =>
            SetOfBoth(gone, PathsOf(State(), watch));
            gone := gone + PathsOf(State(), watch);
          case MarkChanged(watch) =>
            SetOfBoth(marksChanged, PathsOf(State(), watch));
            marksChanged := marksChanged + PathsOf(State(), watch);
        }
        k := k + 1;
      }
      assert notices[..k] == notices;
    }

    method InsertNow(dir: Path, inode: Inode, root: Option<Path>)
      modifies this`directories, this`pathsByWatch, this`kernel, this`nextWatch
      ensures State() == Insert(old(State()), dir, inode, root)
    {
      var watch := WatchOf(State(), inode);
      if inode !in kernel {
        kernel := kernel[inode := watch];
        nextWatch := nextWatch + 1;
      }
      directories := directories[dir := Directory(watch, root, 0)];
      pathsByWatch := pathsByWatch[watch := (if watch in pathsByWatch then pathsByWatch[watch] else []) + [dir]];
    }
  }

  lemma InvIsBase(s: Engine)
    requires Inv(s)
    ensures Base(s)
  {
  }

  // ---------------------------------------------------------------- forgetting

  /** The root, and those of its dependents that are not left. */
  function Taken(dir: Path, dependents: set<Path>, rest: set<Path>): set<Path> {
    {dir} + (dependents - rest)
  }

  lemma NothingTaken(dir: Path, dependents: set<Path>)
    ensures Taken(dir, dependents, dependents) == {dir}
  {
  }

  lemma AllTaken(dir: Path, dependents: set<Path>)
    ensures Taken(dir, dependents, {}) == {dir} + dependents
  {
  }

  lemma OneMoreTaken(dir: Path, dependents: set<Path>, rest: set<Path>, path: Path)
    requires path in rest && rest <= dependents && dir !in dependents
    ensures Taken(dir, dependents, rest - {path}) == Taken(dir, dependents, rest) + {path}
    ensures path !in Taken(dir, dependents, rest) && path in Taken(dir, dependents, rest - {path})
  {
  }

  lemma {:induction false} WithoutNone(paths: seq<Path>, gone: set<Path>)
    requires forall p <- paths :: p !in gone
    ensures Without(paths, gone) == paths
  {
    if paths != [] {
      assert paths == [paths[0]] + paths[1..];
      assert paths[0] in paths;
      WithoutNone(paths[1..], gone);
    }
  }

  lemma {:induction false} WithoutTwice(paths: seq<Path>, a: set<Path>, b: set<Path>)
    ensures Without(Without(paths, a), b) == Without(paths, a + b)
  {
    if paths != [] {
      WithoutTwice(paths[1..], a, b);
      if paths[0] !in a {
        assert ([paths[0]] + Without(paths[1..], a))[1..] == Without(paths[1..], a);
      }
    }
  }

  /** One path goes from the list of its own watch and from no other. */
  lemma DropOne(s: Engine, dir: Path)
    requires Base(s) && dir in s.directories
    ensures var w := s.directories[dir].watch;
            var u := Drop(s, {dir});
            && w in s.pathsByWatch && u.directories == s.directories - {dir}
            && var left := Without(s.pathsByWatch[w], {dir});
               u.pathsByWatch == (if left == [] then s.pathsByWatch - {w} else s.pathsByWatch[w := left])
               && u.kernel == (if left == [] then map i | i in s.kernel && s.kernel[i] != w :: s.kernel[i] else s.kernel)
  {
    hide KernelOk, UsesBut;
    var w := s.directories[dir].watch;
    assert w in s.pathsByWatch && dir in s.pathsByWatch[w];
    forall v | v in s.pathsByWatch && v != w
      ensures Without(s.pathsByWatch[v], {dir}) == s.pathsByWatch[v] && s.pathsByWatch[v] != []
    {
      assert dir !in s.pathsByWatch[v];
      WithoutNone(s.pathsByWatch[v], {dir});
    }
    hide IndexOk, Without;
  }

  lemma DropTwiceLists(s: Engine, a: set<Path>, b: set<Path>)
    ensures Drop(Drop(s, a), b).pathsByWatch == Drop(s, a + b).pathsByWatch
    ensures forall w <- s.pathsByWatch :: Without(s.pathsByWatch[w], a + b) == [] <==>
              w !in Drop(s, a).pathsByWatch || Without(Drop(s, a).pathsByWatch[w], b) == []
  {
    forall w | w in s.pathsByWatch
      ensures Without(Without(s.pathsByWatch[w], a), b) == Without(s.pathsByWatch[w], a + b)
      ensures Without(s.pathsByWatch[w], a) == [] ==> Without(s.pathsByWatch[w], a + b) == []
    {
      WithoutTwice(s.pathsByWatch[w], a, b);
    }
    hide Without;
  }

  lemma DropTwice(s: Engine, a: set<Path>, b: set<Path>)
    ensures Drop(Drop(s, a), b) == Drop(s, a + b)
  {
    hide Without;
    DropTwiceLists(s, a, b);
    assert Drop(Drop(s, a), b).directories == Drop(s, a + b).directories;
    assert Drop(Drop(s, a), b).kernel == Drop(s, a + b).kernel;
  }

  lemma DropNone(s: Engine)
    requires Base(s)
    ensures Drop(s, {}) == s
  {
    forall w | w in s.pathsByWatch
      ensures Without(s.pathsByWatch[w], {}) == s.pathsByWatch[w] && s.pathsByWatch[w] != []
    {
      WithoutNone(s.pathsByWatch[w], {});
    }
    hide Without, KernelOk, UsesBut;
    assert Drop(s, {}).directories == s.directories;
  }

  lemma NothingGoes(s: Engine, dir: Path)
    requires Base(s) && dir !in s.directories
    ensures Forget(s, dir) == s
  {
    assert GoneWith(s, dir) == {};
    DropNone(s);
    hide Drop;
  }

  lemma OnlyItGoes(s: Engine, dir: Path)
    requires dir in s.directories && s.directories[dir].root != Some(dir)
    ensures Forget(s, dir) == Drop(s, {dir})
  {
    assert GoneWith(s, dir) == {dir};
    hide Drop;
  }

  lemma ForgetIsDrop(s: Engine, dir: Path)
    ensures Forget(s, dir) == Drop(s, GoneWith(s, dir))
  {
  }

  lemma GoneIs(s: Engine, dir: Path)
    requires dir in s.directories && s.directories[dir].root == Some(dir)
    ensures var dependents := set p | p in Drop(s, {dir}).directories && Drop(s, {dir}).directories[p].root == Some(dir);
            GoneWith(s, dir) == {dir} + dependents && dir !in dependents && forall p <- dependents :: Names(s, p, dir)
  {
  }

  lemma FewerAfter(s: Engine, gone: set<Path>, one: Path)
    requires one in gone && one in s.directories
    ensures |Drop(s, gone).directories| < |s.directories|
  {
    assert Drop(s, gone).directories.Keys < s.directories.Keys;
    SmallerSet(Drop(s, gone).directories.Keys, s.directories.Keys);
    assert |Drop(s, gone).directories| == |Drop(s, gone).directories.Keys| && |s.directories| == |s.directories.Keys|;
  }

  /** A directory that names the root goes by itself: it is no root of others. */
  lemma DependentGoes(s: Engine, gone: set<Path>, path: Path, dir: Path)
    requires Names(s, path, dir) && path != dir && path !in gone
    ensures Forget(Drop(s, gone), path) == Drop(s, gone + {path}) && path in s.directories
  {
    var u := Drop(s, gone);
    assert u.directories[path] == s.directories[path];
    OnlyItGoes(u, path);
    DropTwice(s, gone, {path});
    hide Drop, Forget;
  }

  lemma DoomedAre(s: Engine, dir: Path)
    ensures Doomed(s, {dir}) == set p | p in s.directories && (IsInside(p, dir) || s.directories[p].root == Some(dir))
  {
  }

  lemma NobodyGone(s: Engine)
    requires Base(s)
    ensures Drop(s, GoneWithAll(s, {})) == s
  {
    assert GoneWithAll(s, {}) == {};
    DropNone(s);
    hide Drop;
  }

  lemma GoneOfOneMore(s: Engine, done: set<Path>, path: Path)
    ensures GoneWithAll(s, done + {path}) == GoneWithAll(s, done) + GoneWith(s, path)
  {
  }

  lemma LeftIs(s: Engine, gone: set<Path>, p: Path)
    ensures p in Drop(s, gone).directories <==> p in s.directories && p !in gone
    ensures p in Drop(s, gone).directories ==> Drop(s, gone).directories[p] == s.directories[p]
  {
  }

  /** Whoever goes with one that is gone is gone. */
  lemma GoneTogether(s: Engine, done: set<Path>, path: Path)
    requires path in GoneWithAll(s, done)
    ensures GoneWith(s, path) <= GoneWithAll(s, done) && GoneWith(Drop(s, GoneWithAll(s, done)), path) == {}
  {
    hide Drop;
    var gone := GoneWithAll(s, done);
    LeftIs(s, gone, path);
    var d :| d in done && path in GoneWith(s, d) && path in s.directories;
    forall p | p in GoneWith(s, path)
      ensures p in gone
    {
      if d != path {
        assert Names(s, path, d);
        assert p == path;
      }
    }
  }

  /** Of those gone already, nobody is a root of others still there. */
  lemma GoneAfter(s: Engine, done: set<Path>, path: Path)
    ensures GoneWithAll(s, done) + GoneWith(Drop(s, GoneWithAll(s, done)), path) == GoneWithAll(s, done) + GoneWith(s, path)
  {
    hide Drop, GoneWithAll;
    var gone := GoneWithAll(s, done);
    if path in gone {
      GoneTogether(s, done, path);
      hide GoneWith;
    } else {
      LeftIs(s, gone, path);
      forall p
        ensures p in GoneWith(Drop(s, gone), path) <==> p in GoneWith(s, path) && p !in gone
      {
        LeftIs(s, gone, p);
      }
      hide GoneWith;
    }
  }

  lemma OneMoreDoomed(s: Engine, done: set<Path>, path: Path)
    ensures Forget(Drop(s, GoneWithAll(s, done)), path) == Drop(s, GoneWithAll(s, done + {path}))
  {
    hide Drop, GoneWith, GoneWithAll;
    var gone := GoneWithAll(s, done);
    DropTwice(s, gone, GoneWith(Drop(s, gone), path));
    GoneAfter(s, done, path);
    GoneOfOneMore(s, done, path);
  }

  lemma DoomedMore(s: Engine, done: set<Path>, dir: Path, d: Path)
    ensures d in Doomed(s, done + {dir}) <==> d in Doomed(s, done) || d in Doomed(s, {dir})
  {
  }

  /** A directory that stays depends on what it depended on. */
  lemma DoomedStays(s: Engine, gone: set<Path>, dir: Path, d: Path)
    ensures d in Doomed(Drop(s, gone), {dir}) <==> d in Doomed(s, {dir}) && d !in gone
  {
    LeftIs(s, gone, d);
    hide Drop;
  }

  lemma GoneStays(s: Engine, gone: set<Path>, d: Path, p: Path)
    requires p in GoneWith(Drop(s, gone), d)
    ensures p in GoneWith(s, d) && d !in gone
  {
    LeftIs(s, gone, p);
    LeftIs(s, gone, d);
    hide Drop;
  }

  lemma GoesWithOne(s: Engine, doomed: set<Path>, p: Path)
    ensures p in GoneWithAll(s, doomed) <==> exists d <- doomed :: p in GoneWith(s, d)
  {
  }

  /** What is forgotten one directory after the other is what is forgotten for all of them. */
  lemma OneMoreTree(s: Engine, done: set<Path>, dir: Path)
    ensures ForgetTrees(ForgetTrees(s, done), {dir}) == ForgetTrees(s, done + {dir})
  {
    hide Drop, GoneWith, GoneWithAll, Doomed;
    var gone := GoneWithAll(s, Doomed(s, done));
    var u := Drop(s, gone);
    var more := GoneWithAll(u, Doomed(u, {dir}));
    DropTwice(s, gone, more);
    forall p
      ensures p in gone + more <==> p in GoneWithAll(s, Doomed(s, done + {dir}))
    {
      OneMoreTreeGoes(s, done, dir, p);
    }
    assert gone + more == GoneWithAll(s, Doomed(s, done + {dir}));
  }

  lemma OneMoreTreeGoes(s: Engine, done: set<Path>, dir: Path, p: Path)
    ensures var gone := GoneWithAll(s, Doomed(s, done));
            var u := Drop(s, gone);
            p in gone || p in GoneWithAll(u, Doomed(u, {dir})) <==> p in GoneWithAll(s, Doomed(s, done + {dir}))
  {
    hide Drop, GoneWith, GoneWithAll, Doomed;
    var gone := GoneWithAll(s, Doomed(s, done));
    var u := Drop(s, gone);
    GoesWithOne(s, Doomed(s, done), p);
    GoesWithOne(u, Doomed(u, {dir}), p);
    GoesWithOne(s, Doomed(s, done + {dir}), p);
    forall d: Path
      ensures d in Doomed(s, done + {dir}) <==> d in Doomed(s, done) || d in Doomed(s, {dir})
      ensures d in Doomed(u, {dir}) <==> d in Doomed(s, {dir}) && d !in gone
      ensures p in GoneWith(u, d) ==> p in GoneWith(s, d)
      ensures p in GoneWith(s, d) ==> p in gone || (p in GoneWith(u, d) && d !in gone)
    {
      DoomedMore(s, done, dir, d);
      DoomedStays(s, gone, dir, d);
      GoneAfter(s, Doomed(s, done), d);
      if p in GoneWith(u, d) {
        GoneStays(s, gone, d, p);
      }
    }
  }

  lemma NoTreeGone(s: Engine)
    requires Base(s)
    ensures SetOf([]) == {} && ForgetTrees(s, SetOf([])) == s
  {
    assert Doomed(s, SetOf([])) == {};
    NobodyGone(s);
    hide Drop;
  }

  lemma OneMorePath(paths: seq<Path>, k: nat)
    requires k < |paths|
    ensures SetOf(paths[..k + 1]) == SetOf(paths[..k]) + {paths[k]}
  {
  }

  lemma SetOfBoth(a: seq<Path>, b: seq<Path>)
    ensures SetOf(a + b) == SetOf(a) + SetOf(b)
  {
  }

  lemma OneMoreTold(s: Engine, notices: seq<Notice>, k: nat)
    requires k < |notices|
    ensures Overflow in notices[..k + 1] <==> Overflow in notices[..k] || notices[k].Overflow?
    ensures GoneOf(s, notices[..k + 1]) == GoneOf(s, notices[..k]) + if notices[k].Gone? then SetOf(PathsOf(s, notices[k].watch)) else {}
    ensures MarkedOf(s, notices[..k + 1]) == MarkedOf(s, notices[..k]) + if notices[k].MarkChanged? then SetOf(PathsOf(s, notices[k].watch)) else {}
  {
    assert notices[..k + 1] == notices[..k] + [notices[k]];
    hide PathsOf;
  }

  /** With nothing to work out again no roots are asked for. */
  lemma NoRoots(s: Engine, disk: Disk, roots: seq<Path>)
    requires AreTheRoots(s, disk, {}, roots)
    ensures roots == []
  {
    NonePaths(roots);
    assert RootsNamed(s, disk, {}) == {};
  }

  lemma NonePaths(paths: seq<Path>)
    ensures SetOf(paths) == {} ==> paths == []
  {
    if paths != [] {
      assert paths[0] in SetOf(paths);
    }
  }

  lemma AffectedAre(s: Engine, changed: set<Path>)
    ensures forall p <- s.directories :: Depends(s, changed, p) <==> exists dir <- changed :: IsInside(p, dir) || s.directories[p].root == Some(dir)
  {
  }

  lemma RootsAreSound(s: Engine, disk: Disk, changed: set<Path>, roots: seq<Path>)
    requires disk.Sound() && AreTheRoots(s, disk, changed, roots)
    ensures forall k :: 0 <= k < |roots| ==> disk.rootOf(roots[k]) == Some(roots[k])
  {
    forall k | 0 <= k < |roots|
      ensures disk.rootOf(roots[k]) == Some(roots[k])
    {
      assert roots[k] in SetOf(roots);
    }
  }

  // ---------------------------------------------------------------- making room, and using

  lemma OldestIsOne(s: Engine, oldest: Path)
    requires Base(s) && IsOldest(s, oldest)
    ensures Oldest(s) == oldest
  {
  }

  lemma {:induction false} RoomIs(s: Engine)
    requires s.limit > 0
    ensures MakeRoom(s).limit == s.limit && |MakeRoom(s).directories| < s.limit
    decreases |s.directories|
  {
    MakeRoomKeepsLimit(s);
  }

  /** Asking for a root is asking for a directory that is its own root. */
  lemma AskOfRoot(s: Engine, disk: Disk, root: Path)
    requires s.limit > 0 && disk.rootOf(root) == Some(root)
    ensures Ask(s, disk, root) == AskRoot(s, disk, root)
  {
  }

  /** Whoever stays while a root is asked for names whom it named. */
  lemma RootStays(s: Engine, disk: Disk, root: Path, dir: Path)
    requires s.limit > 0 && dir in s.directories && dir != root && dir in AskRoot(s, disk, root).0.directories
    ensures AskRoot(s, disk, root).0.directories[dir].root == s.directories[dir].root
  {
    hide Use, Insert, MakeRoom;
    if root in s.directories {
      UseRoots(s, root);
    } else {
      RoomIsPart(s);
      var room := MakeRoom(s);
      if disk.inodeOf(root).Some? {
        var u := Insert(room, root, disk.inodeOf(root).value, disk.rootOf(root));
        InsertRoots(room, root, disk.inodeOf(root).value, disk.rootOf(root));
        UseNames(u, root);
        UseRoots(u, root);
        InsertKeys(room, root, disk.inodeOf(root).value, disk.rootOf(root));
      }
    }
  }

  lemma OwnRoot(s: Engine, dir: Path, inode: Inode, root: Option<Path>)
    ensures var u := Insert(s, dir, inode, root);
            && dir in u.directories && dir in Use(u, dir).directories && Use(u, dir).directories[dir].root == root && Use(u, dir).limit == s.limit
  {
  }

  lemma InsertKeys(s: Engine, dir: Path, inode: Inode, root: Option<Path>)
    ensures Insert(s, dir, inode, root).directories.Keys == s.directories.Keys + {dir}
  {
  }

  lemma {:induction false} RoomIsPart(s: Engine)
    requires s.limit > 0
    ensures forall p <- MakeRoom(s).directories :: p in s.directories && MakeRoom(s).directories[p] == s.directories[p]
    decreases |s.directories|
  {
    if |s.directories| >= s.limit {
      ForgetIsLess(s, Oldest(s));
      RoomIsPart(Forget(s, Oldest(s)));
    }
  }
}
