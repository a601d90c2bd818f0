/**
  What the cache keeps: never more than its limit, each entry and its watch together, and each
  entry's root cached too and used later, so that no root goes while an answer depends on it.
*/
module OverlayInvariant {
  import opened Wrappers
  import opened Sequences
  import opened OverlayRules

  /** The index of watches is the exact inverse of the entries' watches. */
  ghost predicate IndexOk(s: Engine) {
    && (forall w, p :: (w in s.pathsByWatch && p in s.pathsByWatch[w]) <==> (p in s.directories && s.directories[p].watch == w))
    && (forall w <- s.pathsByWatch :: s.pathsByWatch[w] != [] && NoDuplicates(s.pathsByWatch[w]))
  }

  ghost predicate Held(s: Engine, w: Watch) {
    exists i <- s.kernel :: s.kernel[i] == w
  }

  /** The watches held are those the index has, one for an inode, and no number comes again. */
  ghost predicate KernelOk(s: Engine) {
    && (forall w :: w in s.pathsByWatch <==> Held(s, w))
    && (forall i <- s.kernel, j <- s.kernel :: s.kernel[i] == s.kernel[j] ==> i == j)
    && (forall i <- s.kernel :: s.kernel[i].number < s.nextWatch)
  }

  /** No two directories were last used at one time; a directory may be left out. */
  ghost predicate UsesBut(s: Engine, but: set<Path>) {
    && (forall p <- s.directories :: p !in but ==> s.directories[p].lastUse <= s.clock)
    && (forall p <- s.directories, q <- s.directories :: p !in but && q !in but && p != q ==> s.directories[p].lastUse != s.directories[q].lastUse)
  }

  /** The directory is cached, and its own answer names no other directory. */
  ghost predicate NamesNoOther(s: Engine, root: Path) {
    root in s.directories && (s.directories[root].root.None? || s.directories[root].root == Some(root))
  }

  /** The root is cached, names no other, and was used later. */
  ghost predicate Backed(s: Engine, p: Path, root: Path) {
    NamesNoOther(s, root) && p in s.directories && s.directories[p].lastUse < s.directories[root].lastUse
  }

  /** The root is still to be asked for: it is not cached, or names no other. */
  ghost predicate ToBeAsked(s: Engine, root: Path, pending: set<Path>) {
    root in pending && (root in s.directories ==> NamesNoOther(s, root))
  }

  ghost predicate Rooted(s: Engine, pending: set<Path>) {
    forall p, root :: p != root && Names(s, p, root) ==> Backed(s, p, root) || ToBeAsked(s, root, pending)
  }

  ghost predicate Mid(s: Engine, pending: set<Path>) {
    IndexOk(s) && KernelOk(s) && UsesBut(s, {}) && Rooted(s, pending)
  }

  ghost predicate Inv(s: Engine) {
    Mid(s, {}) && 2 <= s.limit && |s.directories| <= s.limit
  }

  /** What is promised of the cache: its limit, its index, and every root that is named cached and used later. */
  ghost predicate IsKept(s: Engine) {
    && |s.directories| <= s.limit && IndexOk(s) && KernelOk(s) && UsesBut(s, {})
    && forall p, root :: p != root && Names(s, p, root) ==> root in s.directories && s.directories[p].lastUse < s.directories[root].lastUse
  }

  /** The same now, and after whichever cached directory is asked about next. */
  ghost predicate IsKeptOn(s: Engine) {
    IsKept(s) && forall p <- s.directories :: IsKept(Use(s, p))
  }

  /** What holds whenever a part of a call ends, whatever was asked and told before. */
  ghost predicate Base(s: Engine) {
    IndexOk(s) && KernelOk(s) && UsesBut(s, {}) && 2 <= s.limit
  }

  ghost predicate Bounded(s: Engine) {
    Base(s) && |s.directories| <= s.limit
  }

  lemma InvIsKept(s: Engine)
    requires Inv(s)
    ensures IsKept(s)
  {
    forall p, root | p != root && Names(s, p, root)
      ensures root in s.directories && s.directories[p].lastUse < s.directories[root].lastUse
    {
      assert Backed(s, p, root);
    }
    hide IndexOk, KernelOk, UsesBut, Rooted;
  }

  // ---------------------------------------------------------------- forgetting

  lemma {:induction false} WithoutIs(paths: seq<Path>, gone: set<Path>)
    ensures forall p :: p in Without(paths, gone) <==> p in paths && p !in gone
    ensures NoDuplicates(paths) ==> NoDuplicates(Without(paths, gone))
  {
    if paths != [] {
      WithoutIs(paths[1..], gone);
      assert paths == [paths[0]] + paths[1..];
      if NoDuplicates(paths) {
        assert NoDuplicates(paths[1..]);
        assert paths[0] !in paths[1..];
      }
    }
  }

  lemma DropIndex(s: Engine, gone: set<Path>)
    requires IndexOk(s)
    ensures IndexOk(Drop(s, gone))
  {
    var u := Drop(s, gone);
    forall w | w in s.pathsByWatch
      ensures forall p :: p in Without(s.pathsByWatch[w], gone) <==> p in s.pathsByWatch[w] && p !in gone
      ensures NoDuplicates(Without(s.pathsByWatch[w], gone))
    {
      WithoutIs(s.pathsByWatch[w], gone);
    }
    hide Without, NoDuplicates;
  }

  lemma DropKernel(s: Engine, gone: set<Path>)
    requires KernelOk(s)
    ensures KernelOk(Drop(s, gone))
  {
    hide Without;
    var u := Drop(s, gone);
    forall w
      ensures w in u.pathsByWatch <==> Held(u, w)
    {
      if w in u.pathsByWatch {
        assert Held(s, w);
        var i :| i in s.kernel && s.kernel[i] == w;
        assert u.kernel[i] == w;
      }
      if Held(u, w) {
        var i :| i in u.kernel && u.kernel[i] == w;
        assert s.kernel[i] == w;
        assert Held(s, w);
      }
    }
  }

  /** Some directories go, and whatever names one of them as its root goes too. */
  lemma DropKeeps(s: Engine, gone: set<Path>, pending: set<Path>)
    requires Mid(s, pending)
    requires forall p, root :: p != root && Names(s, p, root) && root in gone ==> p in gone || root in pending
    ensures Mid(Drop(s, gone), pending)
  {
    DropIndex(s, gone);
    DropKernel(s, gone);
    hide IndexOk, KernelOk, Without;
    var u := Drop(s, gone);
    forall p, root | p != root && Names(u, p, root)
      ensures Backed(u, p, root) || ToBeAsked(u, root, pending)
    {
      assert Names(s, p, root);
    }
  }

  /** The least recently used takes with it whatever names it. */
  lemma OldestIsClosed(s: Engine, oldest: Path, pending: set<Path>)
    requires Rooted(s, pending) && IsOldest(s, oldest)
    ensures forall p, root :: p != root && Names(s, p, root) && root in GoneWith(s, oldest) ==> p in GoneWith(s, oldest) || root in pending
  {
    forall p, root | p != root && Names(s, p, root) && root in GoneWith(s, oldest)
      ensures p in GoneWith(s, oldest) || root in pending
    {
      if root != oldest {
        assert Names(s, root, oldest);
        assert !NamesNoOther(s, root);
      }
    }
  }

  lemma ForgetOldestKeeps(s: Engine, oldest: Path, pending: set<Path>)
    requires Mid(s, pending) && IsOldest(s, oldest)
    ensures Mid(Forget(s, oldest), pending)
  {
    hide Mid, GoneWith, Drop, Rooted, IsOldest;
    MidIsRooted(s, pending);
    OldestIsClosed(s, oldest, pending);
    DropKeeps(s, GoneWith(s, oldest), pending);
  }

  lemma MidIsRooted(s: Engine, pending: set<Path>)
    requires Mid(s, pending)
    ensures Rooted(s, pending)
  {
  }

  predicate IsWithin(path: Path, dirs: set<Path>) {
    exists dir <- dirs :: IsInside(path, dir)
  }

  /**
    The directory names a root below one of `dirs` whose own answer says it is in no root: it was
    asked about before it was marked. Forgetting that root forgets nobody else, so whoever names
    it, and is not forgotten for another reason, is left.
  */
  ghost predicate IsLeftBehind(s: Engine, dirs: set<Path>, p: Path, root: Path) {
    p != root && Names(s, p, root) && root in s.directories && s.directories[root].root.None? && IsWithin(root, dirs) && !Depends(s, dirs, p)
  }

  ghost predicate LeavesNobodyBehind(s: Engine, dirs: set<Path>) {
    forall p, root :: !IsLeftBehind(s, dirs, p, root)
  }

  /** Who goes with the doomed: whoever depends on `dirs`, and names a root of its own below one of them. */
  lemma GoneIff(s: Engine, dirs: set<Path>, p: Path)
    requires Rooted(s, {})
    ensures p in GoneWithAll(s, Doomed(s, dirs)) <==>
            Depends(s, dirs, p) || exists root :: IsWithin(root, dirs) && Names(s, root, root) && Names(s, p, root)
  {
    var doomed := Doomed(s, dirs);
    if p in GoneWithAll(s, doomed) {
      var d :| d in doomed && p in GoneWith(s, d) && p in s.directories;
      if p != d {
        var dir :| dir in dirs && (IsInside(d, dir) || Names(s, d, dir));
        assert IsWithin(d, dirs);
      }
    }
    if Depends(s, dirs, p) {
      assert p in doomed && p in GoneWith(s, p);
    }
    if root :| IsWithin(root, dirs) && Names(s, root, root) && Names(s, p, root) {
      assert root in doomed && p in GoneWith(s, root);
    }
  }

  lemma ForgetTreesNames(s: Engine, dirs: set<Path>)
    ensures var gone, u := GoneWithAll(s, Doomed(s, dirs)), ForgetTrees(s, dirs);
            && u.directories == s.directories - gone && u.limit == s.limit && |u.directories| <= |s.directories|
            && forall p, root :: Names(u, p, root) <==> Names(s, p, root) && p !in gone
  {
    var gone := GoneWithAll(s, Doomed(s, dirs));
    DropNames(s, gone);
    DropDirectories(s, gone);
    FewerDirectories(s.directories, gone);
  }

  lemma DropNames(s: Engine, gone: set<Path>)
    ensures forall p, root :: Names(Drop(s, gone), p, root) <==> Names(s, p, root) && p !in gone
  {
  }

  /** A root goes with whoever depends on `dirs` exactly when it lies within one of them. */
  lemma RootGoesIff(s: Engine, dirs: set<Path>, root: Path)
    requires Rooted(s, {}) && NamesNoOther(s, root)
    ensures root in GoneWithAll(s, Doomed(s, dirs)) <==> IsWithin(root, dirs)
  {
    hide GoneWithAll, Doomed;
    GoneIff(s, dirs, root);
    if IsWithin(root, dirs) {
      var dir :| dir in dirs && IsInside(root, dir);
      assert Depends(s, dirs, root);
    }
    if Depends(s, dirs, root) {
      var dir :| dir in dirs && (IsInside(root, dir) || Names(s, root, dir));
      assert IsInside(root, dir);
    }
  }

  /** Exactly those left behind name a root that is not cached any more. */
  lemma LeftBehindIff(s: Engine, dirs: set<Path>, p: Path, root: Path)
    requires Rooted(s, {}) && p != root
    ensures var u := ForgetTrees(s, dirs);
            Names(u, p, root) && root !in u.directories <==> IsLeftBehind(s, dirs, p, root)
  {
    hide IsInside, GoneWithAll, Doomed, Drop, ForgetTrees;
    ForgetTreesNames(s, dirs);
    if Names(s, p, root) {
      assert Backed(s, p, root);
      RootGoesIff(s, dirs, root);
      GoneIff(s, dirs, p);
      if r :| IsWithin(r, dirs) && Names(s, r, r) && Names(s, p, r) {
        assert r == root;
      }
      assert Names(s, root, root) && IsWithin(root, dirs) ==> IsWithin(root, dirs) && Names(s, root, root) && Names(s, p, root);
    }
  }

  /**
    Forgetting what lies below the directories that left, or names them, keeps the cache as it
    should be if and only if it leaves nobody behind; else an answer is left whose root is not cached.
  */
  lemma ForgetTreesKeepIff(s: Engine, dirs: set<Path>)
    requires Inv(s)
    ensures Inv(ForgetTrees(s, dirs)) <==> LeavesNobodyBehind(s, dirs)
    ensures IsKept(ForgetTrees(s, dirs)) <==> LeavesNobodyBehind(s, dirs)
    ensures forall p <- ForgetTrees(s, dirs).directories :: !Depends(s, dirs, p)
  {
    hide GoneWithAll, Doomed, IsLeftBehind, UsesBut, IndexOk, KernelOk, Drop, Depends;
    var gone, u := GoneWithAll(s, Doomed(s, dirs)), ForgetTrees(s, dirs);
    ForgetTreesNames(s, dirs);
    forall p <- u.directories
      ensures !Depends(s, dirs, p)
    {
      GoneIff(s, dirs, p);
    }
    forall p, root | p != root
      ensures Names(u, p, root) && root !in u.directories <==> IsLeftBehind(s, dirs, p, root)
    {
      LeftBehindIff(s, dirs, p, root);
    }
    if LeavesNobodyBehind(s, dirs) {
      NobodyNamesGone(s, u, gone);
      DropKeeps(s, gone, {});
      InvIsKept(u);
    } else {
      var p, root :| IsLeftBehind(s, dirs, p, root);
      LeftNamesAnother(s, dirs, p, root);
      assert Names(u, p, root) && root !in u.directories;
      if Inv(u) {
        InvIsKept(u);
      }
    }
  }

  lemma LeftNamesAnother(s: Engine, dirs: set<Path>, p: Path, root: Path)
    requires IsLeftBehind(s, dirs, p, root)
    ensures p != root
  {
  }

  lemma NobodyNamesGone(s: Engine, u: Engine, gone: set<Path>)
    requires u.directories == s.directories - gone
    requires forall p, root :: Names(u, p, root) <==> Names(s, p, root) && p !in gone
    requires forall p, root :: p != root && Names(u, p, root) ==> root in u.directories
    ensures forall p, root :: p != root && Names(s, p, root) && root in gone ==> p in gone
  {
  }

  lemma DropDirectories(s: Engine, gone: set<Path>)
    ensures Drop(s, gone).directories == s.directories - gone && Drop(s, gone).limit == s.limit
  {
  }

  lemma FewerDirectories(directories: map<Path, Directory>, gone: set<Path>)
    ensures |directories - gone| <= |directories|
  {
    var a, b := (directories - gone).Keys, directories.Keys;
    assert b == a + (b - a) && a !! (b - a);
    assert |directories - gone| == |a| && |directories| == |b|;
  }

  // ---------------------------------------------------------------- the least recently used

  /** The least recently used is never a root that an entry depends on. */
  lemma OldestHasNoDependents(s: Engine, oldest: Path)
    requires Inv(s) && IsOldest(s, oldest)
    ensures forall p :: p != oldest ==> !Names(s, p, oldest)
    ensures GoneWith(s, oldest) == {oldest}
  {
    forall p
      ensures p != oldest ==> !Names(s, p, oldest)
    {
      assert p != oldest && Names(s, p, oldest) ==> Backed(s, p, oldest);
    }
  }

  /** One left in the cache is as it was. */
  ghost predicate Part(u: Engine, s: Engine) {
    && u.limit == s.limit && u.clock == s.clock
    && (forall p <- u.directories :: p in s.directories && u.directories[p] == s.directories[p])
  }

  lemma {:induction false} MakeRoomKeeps(s: Engine, pending: set<Path>)
    requires Mid(s, pending) && s.limit > 0
    ensures Mid(MakeRoom(s), pending) && Part(MakeRoom(s), s) && |MakeRoom(s).directories| < s.limit
    decreases |s.directories|
  {
    MakeRoomKeepsLimit(s);
    if |s.directories| >= s.limit {
      var u := Forget(s, Oldest(s));
      ForgetIsLess(s, Oldest(s));
      ForgetOldestKeeps(s, Oldest(s), pending);
      hide Mid, GoneWith;
      assert Part(u, s);
      MakeRoomKeeps(u, pending);
    }
  }

  /** The last used stays while another is there, when the root it names is not cached. */
  lemma {:induction false} LastUsedStays(s: Engine, dir: Path)
    requires UsesBut(s, {}) && s.limit >= 2 && dir in s.directories && s.directories[dir].lastUse == s.clock
    requires forall root :: root in s.directories && root != dir ==> !Names(s, dir, root)
    ensures dir in MakeRoom(s).directories && MakeRoom(s).directories[dir] == s.directories[dir]
    decreases |s.directories|
  {
    if |s.directories| >= s.limit {
      var oldest := Oldest(s);
      ForgetIsLess(s, oldest);
      OtherIsOlder(s, dir);
      var u := Forget(s, oldest);
      assert dir !in GoneWith(s, oldest);
      LastUsedStays(u, dir);
    }
  }

  lemma OtherIsOlder(s: Engine, dir: Path)
    requires UsesBut(s, {}) && |s.directories| >= 2 && dir in s.directories && s.directories[dir].lastUse == s.clock
    ensures Oldest(s) != dir
  {
    var others := s.directories.Keys - {dir};
    assert |others| == |s.directories.Keys| - 1;
    var other :| other in others;
    assert s.directories[other].lastUse < s.directories[dir].lastUse;
  }

  // ---------------------------------------------------------------- using and making entries

  lemma UseKeepsUses(s: Engine, dir: Path)
    requires dir in s.directories && UsesBut(s, {dir})
    ensures UsesBut(Use(s, dir), {})
    ensures Use(s, dir).directories[dir].lastUse <= Use(s, dir).clock
  {
    hide Use, Names, NamesNoOther;
    UseTimes(s, dir);
    UseNames(s, dir);
    UseClock(s, dir);
  }

  lemma UseClock(s: Engine, dir: Path)
    requires dir in s.directories
    ensures var root := s.directories[dir].root;
            Use(s, dir).clock == if root.Some? && root.value in s.directories && root.value != dir then s.clock + 2 else s.clock + 1
  {
  }

  /** Backed, or to be asked for; of one directory nothing is said of when it was used. */
  ghost predicate RootedBut(s: Engine, dir: Path, pending: set<Path>) {
    && (forall p, root :: p != root && p != dir && Names(s, p, root) ==> Backed(s, p, root) || ToBeAsked(s, root, pending))
    && (forall root :: root != dir && Names(s, dir, root) ==> NamesNoOther(s, root) || ToBeAsked(s, root, pending))
  }

  lemma UseNames(s: Engine, dir: Path)
    requires dir in s.directories
    ensures forall p, root :: Names(Use(s, dir), p, root) <==> Names(s, p, root)
    ensures forall p :: NamesNoOther(Use(s, dir), p) <==> NamesNoOther(s, p)
    ensures Use(s, dir).directories.Keys == s.directories.Keys
  {
  }

  /** Who is used now, and whoever it names. */
  lemma UseTimes(s: Engine, dir: Path)
    requires dir in s.directories
    ensures var u, root := Use(s, dir), s.directories[dir].root;
            && u.directories[dir].lastUse == s.clock + 1
            && (root.Some? && root.value in s.directories && root.value != dir ==> u.directories[root.value].lastUse == s.clock + 2)
            && (forall p <- s.directories :: p != dir && root != Some(p) ==> u.directories[p].lastUse == s.directories[p].lastUse)
  {
  }

  lemma UseKeepsRooted(s: Engine, dir: Path, pending: set<Path>)
    requires dir in s.directories && UsesBut(s, {dir}) && RootedBut(s, dir, pending)
    ensures Rooted(Use(s, dir), pending - {dir})
  {
    var u := Use(s, dir);
    UseNames(s, dir);
    UseTimes(s, dir);
    var own := s.directories[dir].root;
    if own.Some? && own.value != dir && own.value in s.directories {
      assert Names(s, dir, own.value);
      assert NamesNoOther(s, own.value);
    }
    hide Use;
    forall p, root | p != root && Names(u, p, root)
      ensures Backed(u, p, root) || ToBeAsked(u, root, pending - {dir})
    {
      assert Names(s, p, root);
      if p == dir {
        if root !in s.directories {
          assert ToBeAsked(s, root, pending);
        }
      } else {
        assert own != Some(p) || p !in s.directories;
        assert Backed(s, p, root) || ToBeAsked(s, root, pending);
      }
    }
  }

  lemma UseKeepsIndex(s: Engine, dir: Path)
    requires dir in s.directories && IndexOk(s) && KernelOk(s)
    ensures IndexOk(Use(s, dir)) && KernelOk(Use(s, dir))
  {
    var u := Use(s, dir);
    forall p <- s.directories
      ensures u.directories[p].watch == s.directories[p].watch
    {
    }
    SameKernel(s, u);
    hide KernelOk, NoDuplicates;
  }

  lemma SameKernel(s: Engine, u: Engine)
    requires KernelOk(s) && u.kernel == s.kernel && u.pathsByWatch == s.pathsByWatch && u.nextWatch == s.nextWatch
    ensures KernelOk(u)
  {
    forall w
      ensures Held(u, w) <==> Held(s, w)
    {
    }
  }

  lemma UseKeeps(s: Engine, dir: Path, pending: set<Path>)
    requires Mid(s, pending) && dir in s.directories
    ensures Mid(Use(s, dir), pending - {dir}) && |Use(s, dir).directories| == |s.directories| && Use(s, dir).limit == s.limit
  {
    assert RootedBut(s, dir, pending);
    hide IndexOk, KernelOk, Rooted, RootedBut;
    UsesButMore(s, {dir});
    UseKeepsUses(s, dir);
    UseKeepsRooted(s, dir, pending);
    UseKeepsIndex(s, dir);
    UseNames(s, dir);
    SameSize(s.directories, Use(s, dir).directories);
    hide Use, UsesBut;
  }

  lemma UsesButMore(s: Engine, but: set<Path>)
    requires UsesBut(s, {})
    ensures UsesBut(s, but)
  {
  }

  lemma SameSize(a: map<Path, Directory>, b: map<Path, Directory>)
    requires a.Keys == b.Keys
    ensures |a| == |b|
  {
    assert |a| == |a.Keys| && |b| == |b.Keys|;
  }

  lemma InsertIndex(s: Engine, dir: Path, inode: Inode, root: Option<Path>)
    requires IndexOk(s) && KernelOk(s) && dir !in s.directories
    ensures IndexOk(Insert(s, dir, inode, root))
  {
    hide KernelOk;
    var u, w := Insert(s, dir, inode, root), WatchOf(s, inode);
    assert dir !in PathsOf(s, w);
    assert NoDuplicates(PathsOf(s, w) + [dir]);
    hide NoDuplicates;
    forall v, p
      ensures (v in u.pathsByWatch && p in u.pathsByWatch[v]) <==> (p in u.directories && u.directories[p].watch == v)
    {
      assert (v in s.pathsByWatch && p in s.pathsByWatch[v]) <==> (p in s.directories && s.directories[p].watch == v);
    }
  }

  lemma InsertKernel(s: Engine, dir: Path, inode: Inode, root: Option<Path>)
    requires KernelOk(s)
    ensures KernelOk(Insert(s, dir, inode, root))
  {
    var u, w := Insert(s, dir, inode, root), WatchOf(s, inode);
    forall v
      ensures v in u.pathsByWatch <==> Held(u, v)
    {
      if v == w {
        assert u.kernel[inode] == w;
      } else {
        if Held(s, v) {
          var i :| i in s.kernel && s.kernel[i] == v;
          assert u.kernel[i] == v;
        }
        if Held(u, v) {
          var i :| i in u.kernel && u.kernel[i] == v;
          assert s.kernel[i] == v;
        }
      }
    }
  }

  /** A directory that comes into the cache, and is used at once. */
  lemma InsertKeeps(s: Engine, dir: Path, inode: Inode, root: Option<Path>, pending: set<Path>)
    requires Mid(s, pending) && dir !in s.directories && |s.directories| < s.limit
    requires root.Some? && root.value != dir ==> NamesNoOther(s, root.value) || ToBeAsked(s, root.value, pending)
    requires dir in pending ==> root == Some(dir)
    ensures var u := Use(Insert(s, dir, inode, root), dir);
            Mid(u, pending - {dir}) && |u.directories| <= u.limit
  {
    hide IndexOk, KernelOk, Rooted, RootedBut, Use;
    var inserted := Insert(s, dir, inode, root);
    InsertIndex(s, dir, inode, root);
    InsertKernel(s, dir, inode, root);
    InsertRooted(s, dir, inode, root, pending);
    InsertUses(s, dir, inode, root);
    UseKeepsUses(inserted, dir);
    UseKeepsRooted(inserted, dir, pending);
    UseKeepsIndex(inserted, dir);
    InsertedIs(s, dir, inode, root);
    hide UsesBut, Insert;
  }

  lemma InsertUses(s: Engine, dir: Path, inode: Inode, root: Option<Path>)
    requires UsesBut(s, {})
    ensures UsesBut(Insert(s, dir, inode, root), {dir})
  {
  }

  lemma InsertedIs(s: Engine, dir: Path, inode: Inode, root: Option<Path>)
    requires dir !in s.directories
    ensures var u := Use(Insert(s, dir, inode, root), dir);
            && |u.directories| == |s.directories| + 1 && u.limit == s.limit
            && u.directories.Keys == s.directories.Keys + {dir}
            && (forall p, r :: Names(u, p, r) <==> if p == dir then root == Some(r) else Names(s, p, r))
            && (root.None? || root.value !in s.directories ==> u.directories[dir].lastUse == u.clock)
  {
    var inserted := Insert(s, dir, inode, root);
    assert inserted.directories.Keys == s.directories.Keys + {dir};
    UseNames(inserted, dir);
    SameSize(Use(inserted, dir).directories, inserted.directories);
    assert |s.directories.Keys + {dir}| == |s.directories.Keys| + 1;
    assert |inserted.directories| == |inserted.directories.Keys| && |s.directories| == |s.directories.Keys|;
  }

  lemma InsertRooted(s: Engine, dir: Path, inode: Inode, root: Option<Path>, pending: set<Path>)
    requires Rooted(s, pending) && dir !in s.directories
    requires root.Some? && root.value != dir ==> NamesNoOther(s, root.value) || ToBeAsked(s, root.value, pending)
    requires dir in pending ==> root == Some(dir)
    ensures RootedBut(Insert(s, dir, inode, root), dir, pending)
  {
    var u := Insert(s, dir, inode, root);
    assert forall p, r :: p != dir ==> (Names(u, p, r) <==> Names(s, p, r));
    forall p, r | p != r && p != dir && Names(u, p, r)
      ensures Backed(u, p, r) || ToBeAsked(u, r, pending)
    {
      assert Names(s, p, r);
      if r == dir {
        assert ToBeAsked(s, r, pending);
      }
    }
  }

  // ---------------------------------------------------------------- why roots are to name no others

  lemma KeptUses(s: Engine)
    requires IsKept(s)
    ensures IndexOk(s) && KernelOk(s) && UsesBut(s, {}) && |s.directories| <= s.limit
    ensures forall p, root :: p != root && Names(s, p, root) ==> root in s.directories && s.directories[p].lastUse < s.directories[root].lastUse
  {
  }

  /** A root that names a third: when a directory that names it is used, it is used later than the third. */
  lemma ThirdIsLeft(s: Engine, p: Path, root: Path)
    requires UsesBut(s, {}) && p != root && Names(s, p, root) && root in s.directories && !NamesNoOther(s, root)
    ensures !IsKept(Use(s, p))
  {
    var third, u := s.directories[root].root.value, Use(s, p);
    UseTimes(s, p);
    UseNames(s, p);
    UseClock(s, p);
    assert Names(s, root, third);
    if third in s.directories && third != p {
      assert u.directories[third].lastUse == s.directories[third].lastUse <= s.clock;
    }
    hide Use, IndexOk, KernelOk, UsesBut;
    assert Names(u, root, third) && third != root;
  }

  /** The cache is as it should be exactly when what is promised of it holds now, and after whichever cached directory is asked about next. */
  lemma InvIff(s: Engine)
    requires 2 <= s.limit
    ensures Inv(s) <==> IsKeptOn(s)
  {
    hide Use, IsKept, IndexOk, KernelOk, UsesBut;
    if Inv(s) {
      InvIsKept(s);
      forall p <- s.directories
        ensures IsKept(Use(s, p))
      {
        UseKeepsInv(s, p);
        InvIsKept(Use(s, p));
      }
    }
    if IsKeptOn(s) {
      KeptUses(s);
      forall p, root | p != root && Names(s, p, root)
        ensures Backed(s, p, root)
      {
        if !NamesNoOther(s, root) {
          ThirdIsLeft(s, p, root);
        }
      }
    }
  }

  lemma UseKeepsInv(s: Engine, dir: Path)
    requires Inv(s) && dir in s.directories
    ensures Inv(Use(s, dir))
  {
    hide Mid, Use;
    UseKeeps(s, dir, {});
    assert {} - {dir} == {};
  }
}
