/** Asking about a directory: when its answer keeps a cached root, what is answered, and who is evicted for it. */
module OverlayAsking {
  import opened Wrappers
  import opened OverlayRules
  import opened OverlayInvariant

  // ---------------------------------------------------------------- what holds whatever happened

  lemma DropKeepsBase(s: Engine, gone: set<Path>)
    requires Base(s)
    ensures Base(Drop(s, gone))
  {
    DropIndex(s, gone);
    DropKernel(s, gone);
    hide IndexOk, KernelOk, Without;
  }

  lemma UseKeepsBase(s: Engine, dir: Path)
    requires Base(s) && dir in s.directories
    ensures Base(Use(s, dir))
  {
    hide IndexOk, KernelOk, UsesBut;
    UsesButMore(s, {dir});
    UseKeepsUses(s, dir);
    UseKeepsIndex(s, dir);
  }

  lemma InsertKeepsBase(s: Engine, dir: Path, inode: Inode, root: Option<Path>)
    requires Base(s) && dir !in s.directories
    ensures dir in Insert(s, dir, inode, root).directories && Base(Use(Insert(s, dir, inode, root), dir))
  {
    hide IndexOk, KernelOk, UsesBut;
    var u := Insert(s, dir, inode, root);
    InsertIndex(s, dir, inode, root);
    InsertKernel(s, dir, inode, root);
    InsertUses(s, dir, inode, root);
    UseKeepsUses(u, dir);
    UseKeepsIndex(u, dir);
  }

  // ---------------------------------------------------------------- asking

  lemma MidMore(s: Engine, pending: set<Path>)
    requires Mid(s, {})
    ensures Mid(s, pending)
  {
  }

  /** The root is cached, and used last; nobody waits for it any more. */
  lemma AskRootKeeps(s: Engine, disk: Disk, root: Path, pending: set<Path>)
    requires Mid(s, pending) && 2 <= s.limit && |s.directories| <= s.limit
    requires disk.rootOf(root) == Some(root) && (root in s.directories || disk.inodeOf(root).Some?)
    ensures var u := AskRoot(s, disk, root).0; Mid(u, pending - {root}) && |u.directories| <= u.limit && u.limit == s.limit
  {
    hide Mid, Use, MakeRoom, Insert;
    if root in s.directories {
      UseKeeps(s, root, pending);
    } else {
      MakeRoomKeeps(s, pending);
      var room := MakeRoom(s);
      InsertKeeps(room, root, disk.inodeOf(root).value, Some(root), pending);
      InsertedIs(room, root, disk.inodeOf(root).value, Some(root));
    }
  }

  /** What a caller can see beforehand: the root the directory will name is cached and names no other, or is not cached and can be watched. */
  ghost predicate WillBeBacked(s: Engine, disk: Disk, dir: Path)
    requires s.limit > 0
  {
    || dir in s.directories
    || disk.inodeOf(dir).None?
    || disk.rootOf(dir).None?
    || disk.rootOf(dir) == Some(dir)
    || (var root := disk.rootOf(dir).value;
        if root in MakeRoom(s).directories then NamesNoOther(MakeRoom(s), root) else disk.inodeOf(root).Some?)
  }

  /** The cache while a new directory's root is asked for. */
  ghost function Own(s: Engine, disk: Disk, dir: Path): Engine
    requires s.limit > 0 && disk.inodeOf(dir).Some?
  {
    Use(Insert(MakeRoom(s), dir, disk.inodeOf(dir).value, disk.rootOf(dir)), dir)
  }

  lemma OwnIs(s: Engine, disk: Disk, dir: Path)
    requires Inv(s) && disk.inodeOf(dir).Some? && dir !in s.directories
    ensures var own, room := Own(s, disk, dir), MakeRoom(s);
            && own.limit == s.limit && |own.directories| <= s.limit && own.directories.Keys == room.directories.Keys + {dir} && dir !in room.directories
            && (forall p, r :: Names(own, p, r) <==> if p == dir then disk.rootOf(dir) == Some(r) else Names(room, p, r))
            && (disk.rootOf(dir).None? || disk.rootOf(dir).value !in room.directories ==> own.directories[dir].lastUse == own.clock)
            && own.directories[dir].root == disk.rootOf(dir)
  {
    MakeRoomKeeps(s, {});
    hide Mid, Use, MakeRoom, Insert, Names;
    InsertedIs(MakeRoom(s), dir, disk.inodeOf(dir).value, disk.rootOf(dir));
    RootOfNames(Own(s, disk, dir), dir, disk.rootOf(dir));
  }

  lemma RootOfNames(s: Engine, dir: Path, root: Option<Path>)
    requires dir in s.directories && forall r :: Names(s, dir, r) <==> root == Some(r)
    ensures s.directories[dir].root == root
  {
  }

  /** A new directory whose root is another: it stays while that root is asked for. */
  lemma OwnStays(s: Engine, disk: Disk, dir: Path)
    requires Inv(s) && dir !in s.directories && disk.inodeOf(dir).Some? && disk.rootOf(dir).Some? && disk.rootOf(dir).value != dir
    requires UsesBut(Own(s, disk, dir), {})
    ensures Own(s, disk, dir).limit == s.limit
    ensures var own, root := Own(s, disk, dir), disk.rootOf(dir).value;
            var rooted := AskRoot(own, disk, root).0;
            && dir in rooted.directories && rooted.directories[dir].root == disk.rootOf(dir)
            && Ask(s, disk, dir) == (Use(rooted, dir), true)
  {
    OwnIs(s, disk, dir);
    var own, root := Own(s, disk, dir), disk.rootOf(dir).value;
    MakeRoomKeepsLimit(s);
    hide MakeRoom, Inv;
    RootedHas(own, disk, dir, root);
    hide AskRoot, Insert, Own;
    var rooted := AskRoot(own, disk, root).0;
    assert rooted.directories[dir := rooted.directories[dir].(root := disk.rootOf(dir))] == rooted.directories;
  }

  lemma RootedHas(own: Engine, disk: Disk, dir: Path, root: Path)
    requires UsesBut(own, {}) && own.limit >= 2 && dir in own.directories && root != dir && own.directories[dir].root == Some(root)
    requires root !in own.directories ==> own.directories[dir].lastUse == own.clock
    ensures var rooted := AskRoot(own, disk, root).0; dir in rooted.directories && rooted.directories[dir].root == Some(root)
  {
    hide MakeRoom, UsesBut, Use, Insert;
    if root in own.directories {
      UseRoots(own, root);
    } else {
      LastUsedStays(own, dir);
      if disk.inodeOf(root).Some? {
        var room, inode := MakeRoom(own), disk.inodeOf(root).value;
        InsertRoots(room, root, inode, disk.rootOf(root));
        UseRoots(Insert(room, root, inode, disk.rootOf(root)), root);
      }
    }
  }

  lemma UseRoots(s: Engine, dir: Path)
    requires dir in s.directories
    ensures forall p <- s.directories :: p in Use(s, dir).directories && Use(s, dir).directories[p].root == s.directories[p].root
  {
  }

  lemma InsertRoots(s: Engine, dir: Path, inode: Inode, root: Option<Path>)
    ensures dir in Insert(s, dir, inode, root).directories
    ensures forall p <- s.directories :: p != dir ==> p in Insert(s, dir, inode, root).directories && Insert(s, dir, inode, root).directories[p] == s.directories[p]
  {
  }

  /** Asking keeps the cache as it should be, when the root will be backed. */
  lemma AskKeeps(s: Engine, disk: Disk, dir: Path)
    requires Inv(s) && disk.Sound() && WillBeBacked(s, disk, dir)
    ensures Inv(Ask(s, disk, dir).0)
  {
    hide Mid, Use, MakeRoom, Insert;
    MakeRoomKeeps(s, {});
    if dir in s.directories {
      UseKeeps(s, dir, {});
      NoneLess(dir);
    } else if disk.inodeOf(dir).Some? {
      var root := disk.rootOf(dir);
      if root.None? || root.value == dir {
        InsertKeeps(MakeRoom(s), dir, disk.inodeOf(dir).value, root, {});
        InsertedIs(MakeRoom(s), dir, disk.inodeOf(dir).value, root);
        NoneLess(dir);
      } else {
        AskNewKeeps(s, disk, dir);
      }
    }
  }

  lemma NoneLess(dir: Path)
    ensures {} - {dir} == {}
  {
  }

  lemma AskNewKeeps(s: Engine, disk: Disk, dir: Path)
    requires Inv(s) && disk.Sound() && WillBeBacked(s, disk, dir)
    requires dir !in s.directories && disk.inodeOf(dir).Some? && disk.rootOf(dir).Some? && disk.rootOf(dir).value != dir
    ensures Inv(Ask(s, disk, dir).0)
  {
    hide Use, MakeRoom, Insert, AskRoot, IndexOk, KernelOk, Rooted, UsesBut;
    var room, root := MakeRoom(s), disk.rootOf(dir).value;
    var own := Own(s, disk, dir);
    MakeRoomKeeps(s, {});
    MidMore(room, {root});
    InsertKeeps(room, dir, disk.inodeOf(dir).value, Some(root), {root});
    assert {root} - {dir} == {root};
    OwnIs(s, disk, dir);
    OwnStays(s, disk, dir);
    AskRootKeeps(own, disk, root, {root});
    assert {root} - {root} == {};
    var rooted := AskRoot(own, disk, root).0;
    UseKeeps(rooted, dir, {});
    NoneLess(dir);
  }

  /** The root names a third directory: it was used later than that one, and the third is no longer the last. */
  lemma ThirdIsOlder(own: Engine, dir: Path, root: Path)
    requires UsesBut(own, {}) && dir in own.directories && root in own.directories && root != dir && own.directories[dir].root == Some(root)
    requires !NamesNoOther(own, root)
    ensures !IsKept(Use(Use(own, root), dir))
  {
    var rooted := Use(own, root);
    UseKeepsUsesOf(own, root);
    UseNames(own, root);
    UseRoots(own, root);
    UseTimes(rooted, dir);
    UseNames(rooted, dir);
    UseRoots(rooted, dir);
    var third := own.directories[root].root.value;
    var u := Use(rooted, dir);
    assert Names(u, root, third) && u.directories[root].lastUse == rooted.clock + 2;
    assert third in rooted.directories && third != dir ==> u.directories[third].lastUse <= rooted.clock;
    assert u.directories[dir].lastUse == rooted.clock + 1;
    hide Use, IndexOk, KernelOk, UsesBut;
  }

  lemma UseKeepsUsesOf(s: Engine, dir: Path)
    requires dir in s.directories && UsesBut(s, {})
    ensures UsesBut(Use(s, dir), {})
  {
    UsesButMore(s, {dir});
    UseKeepsUses(s, dir);
    hide UsesBut, Use;
  }

  /** A root that is not cached and that no watch is granted of: the answer that names it stays without it. */
  lemma RootIsMissing(own: Engine, disk: Disk, dir: Path, root: Path)
    requires own.limit > 0 && root !in own.directories && disk.inodeOf(root).None? && dir != root
    requires var rooted := AskRoot(own, disk, root).0; dir in rooted.directories && rooted.directories[dir].root == Some(root)
    ensures !IsKept(Use(AskRoot(own, disk, root).0, dir))
  {
    var rooted := AskRoot(own, disk, root).0;
    NotInRoom(own, root);
    UseNames(rooted, dir);
    assert Names(Use(rooted, dir), dir, root);
    hide Use, IndexOk, KernelOk, UsesBut, MakeRoom;
  }

  /** And only then: where the root's own cached answer names a third, or no watch of it is granted, what is promised does not hold. */
  lemma AskBreaks(s: Engine, disk: Disk, dir: Path)
    requires Inv(s) && disk.Sound() && !WillBeBacked(s, disk, dir)
    ensures !IsKept(Ask(s, disk, dir).0)
  {
    hide AskRoot, Use, MakeRoom, Insert, Own, Inv, IsKept, NamesNoOther;
    LimitIsPositive(s);
    var room, root := MakeRoom(s), disk.rootOf(dir).value;
    var own := Own(s, disk, dir);
    OwnIs(s, disk, dir);
    OwnUses(s, disk, dir);
    OwnStays(s, disk, dir);
    if root in room.directories {
      SameNamesNoOther(room, own, root);
      AskCached(own, disk, root);
      ThirdIsOlder(own, dir, root);
    } else {
      RootIsMissing(own, disk, dir, root);
    }
  }

  lemma LimitIsPositive(s: Engine)
    requires Inv(s)
    ensures s.limit > 0
  {
  }

  lemma AskCached(s: Engine, disk: Disk, root: Path)
    requires s.limit > 0 && root in s.directories
    ensures AskRoot(s, disk, root) == (Use(s, root), true)
  {
  }

  lemma SameNamesNoOther(s: Engine, u: Engine, root: Path)
    requires root in s.directories && root in u.directories && forall r :: Names(u, root, r) <==> Names(s, root, r)
    ensures NamesNoOther(u, root) <==> NamesNoOther(s, root)
  {
    if s.directories[root].root.Some? {
      assert Names(s, root, s.directories[root].root.value);
    }
    if u.directories[root].root.Some? {
      assert Names(u, root, u.directories[root].root.value);
    }
  }

  lemma OwnUses(s: Engine, disk: Disk, dir: Path)
    requires Inv(s) && disk.inodeOf(dir).Some? && dir !in s.directories
    ensures UsesBut(Own(s, disk, dir), {})
  {
    MakeRoomKeeps(s, {});
    hide Use, MakeRoom, Insert, IndexOk, KernelOk, Rooted;
    InsertUses(MakeRoom(s), dir, disk.inodeOf(dir).value, disk.rootOf(dir));
    InsertHas(MakeRoom(s), dir, disk.inodeOf(dir).value, disk.rootOf(dir));
    UseKeepsUses(Insert(MakeRoom(s), dir, disk.inodeOf(dir).value, disk.rootOf(dir)), dir);
  }

  lemma InsertHas(s: Engine, dir: Path, inode: Inode, root: Option<Path>)
    ensures dir in Insert(s, dir, inode, root).directories
  {
  }

  lemma {:induction false} NotInRoom(s: Engine, root: Path)
    requires s.limit > 0 && root !in s.directories
    ensures root !in MakeRoom(s).directories
    decreases |s.directories|
  {
    if |s.directories| >= s.limit {
      ForgetIsLess(s, Oldest(s));
      NotInRoom(Forget(s, Oldest(s)), root);
    }
  }

  /**
    Asking keeps the cache within its limit, its index the exact inverse and every root that is
    named cached and used later, if and only if the root that the directory names is cached
    and names no other, or is not cached and can be watched. It then keeps also that roots name
    no others, so that the next question can be asked.
  */
  lemma AskKeepsIff(s: Engine, disk: Disk, dir: Path)
    requires Inv(s) && disk.Sound()
    ensures IsKept(Ask(s, disk, dir).0) <==> WillBeBacked(s, disk, dir)
    ensures Inv(Ask(s, disk, dir).0) <==> WillBeBacked(s, disk, dir)
  {
    hide *;
    LimitIsPositive(s);
    if WillBeBacked(s, disk, dir) {
      AskKeeps(s, disk, dir);
      InvIsKept(Ask(s, disk, dir).0);
    } else {
      AskBreaks(s, disk, dir);
      if Inv(Ask(s, disk, dir).0) {
        InvIsKept(Ask(s, disk, dir).0);
      }
    }
  }

  // ---------------------------------------------------------------- what is answered, and who goes

  /** Eviction takes the least recently used: whoever goes was used before whoever stays. */
  lemma {:induction false} LeastUsedGo(s: Engine, gone: Path, stays: Path)
    requires Mid(s, {}) && s.limit > 0 && gone in s.directories && gone !in MakeRoom(s).directories && stays in MakeRoom(s).directories
    ensures stays in s.directories && s.directories[gone].lastUse < s.directories[stays].lastUse
    decreases |s.directories|
  {
    if |s.directories| >= s.limit {
      var oldest := Oldest(s);
      var u := Forget(s, oldest);
      ForgetIsLess(s, oldest);
      OldestGoesAlone(s, oldest);
      ForgetOldestKeeps(s, oldest, {});
      MakeRoomKeeps(u, {});
      hide IndexOk, KernelOk, Rooted, Drop;
      if gone != oldest {
        LeastUsedGo(u, gone, stays);
      }
    }
  }

  lemma OldestGoesAlone(s: Engine, oldest: Path)
    requires Mid(s, {}) && IsOldest(s, oldest)
    ensures Forget(s, oldest).directories == s.directories - {oldest}
    ensures forall p <- s.directories :: p != oldest ==> s.directories[oldest].lastUse < s.directories[p].lastUse
  {
  }

  /**
    Asking gives no cached answer exactly for a directory that is not cached and of which no
    watch is granted; else the answer is the cached one, or what the disk says now.
  */
  lemma AskAnswers(s: Engine, disk: Disk, dir: Path)
    requires Inv(s) && disk.Sound()
    ensures var (u, isCached) := Ask(s, disk, dir);
            && (isCached <==> dir in s.directories || disk.inodeOf(dir).Some?)
            && (isCached ==> dir in u.directories && u.directories[dir].root == if dir in s.directories then s.directories[dir].root else disk.rootOf(dir))
  {
    if dir in s.directories {
      UseRoots(s, dir);
    } else if disk.inodeOf(dir).Some? {
      OwnIs(s, disk, dir);
      OwnUses(s, disk, dir);
      if disk.rootOf(dir).Some? && disk.rootOf(dir).value != dir {
        OwnStays(s, disk, dir);
        UseRoots(AskRoot(Own(s, disk, dir), disk, disk.rootOf(dir).value).0, dir);
      }
    }
    hide Use, Insert, MakeRoom, AskRoot, Inv;
  }
}
