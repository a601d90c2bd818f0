/** Whole runs of questions and of what is told, and the ways in which an answer can lose its root. */
module OverlayRuns {
  import opened Wrappers
  import opened OverlayRules
  import opened OverlayInvariant
  import opened OverlayAsking
  import opened OverlayReading
  import opened OverlayMarks

  // ---------------------------------------------------------------- whole runs

  datatype Event =
    | Asked(disk: Disk, dir: Path)
    | Told(disk: Disk, notices: seq<Notice>, roots: seq<Path>)

  ghost function Step(s: Engine, event: Event): Engine
    requires s.limit > 0
  {
    match event
    case Asked(disk, dir) => Ask(s, disk, dir).0
    case Told(disk, notices, roots) => ReadAll(s, disk, notices, roots)
  }

  /** What the disk and the tables are: a root is its own root, and the roots asked for are those that are named. */
  ghost predicate Happens(s: Engine, event: Event) {
    match event
    case Asked(disk, dir) => disk.Sound()
    case Told(disk, notices, roots) => disk.Sound() && AreRootsOf(s, disk, notices, roots)
  }

  ghost predicate Fits(s: Engine, event: Event)
    requires s.limit > 0
  {
    && Happens(s, event)
    && match event
       case Asked(disk, dir) => WillBeBacked(s, disk, dir)
       case Told(disk, notices, roots) => WillAllBeBacked(s, disk, notices, roots)
  }

  lemma StepKeeps(s: Engine, event: Event)
    requires Inv(s) && Fits(s, event)
    ensures Inv(Step(s, event))
  {
    hide AreRootsOf, WillBeBacked, WillAllBeBacked, Ask, ReadAll;
    match event
    case Asked(disk, dir) => AskKeeps(s, disk, dir);
    case Told(disk, notices, roots) => ReadKeeps(s, disk, notices, roots);
  }

  ghost predicate Reachable(s: Engine, events: seq<Event>, u: Engine)
    decreases |events|
  {
    if events == [] then u == s
    else s.limit > 0 && Fits(s, events[0]) && Reachable(Step(s, events[0]), events[1..], u)
  }

  lemma {:induction false} RunKeeps(s: Engine, events: seq<Event>, u: Engine)
    requires Inv(s) && Reachable(s, events, u)
    ensures Inv(u)
    decreases |events|
  {
    hide Inv, Fits, Step;
    if events != [] {
      StepKeeps(s, events[0]);
      RunKeeps(Step(s, events[0]), events[1..], u);
    }
  }

  lemma NewIsOk(limit: nat)
    ensures Inv(New(limit)) && New(limit).limit == (if limit < 2 then 2 else limit) && New(limit).directories == map[]
  {
  }

  /** In every reachable state: within the limit, and the least recently used is no root an answer depends on. */
  lemma NoRootGoesFirst(limit: nat, events: seq<Event>, u: Engine, oldest: Path)
    requires Reachable(New(limit), events, u) && IsOldest(u, oldest)
    ensures |u.directories| <= u.limit
    ensures forall p :: p != oldest ==> !Names(u, p, oldest)
    ensures Forget(u, oldest).directories == u.directories - {oldest}
  {
    hide Reachable, Mid;
    NewIsOk(limit);
    RunKeeps(New(limit), events, u);
    OldestHasNoDependents(u, oldest);
  }

  // ---------------------------------------------------------------- whatever happened

  /** A run in which anything happens, roots that cannot be watched and answers left behind too. */
  ghost predicate Happened(s: Engine, events: seq<Event>, u: Engine)
    decreases |events|
  {
    if events == [] then u == s
    else s.limit > 0 && Happens(s, events[0]) && Happened(Step(s, events[0]), events[1..], u)
  }

  lemma {:induction false} RoomIsBounded(s: Engine)
    requires Base(s)
    ensures Base(MakeRoom(s)) && MakeRoom(s).limit == s.limit && |MakeRoom(s).directories| < s.limit
    decreases |s.directories|
  {
    MakeRoomKeepsLimit(s);
    hide IndexOk, KernelOk, UsesBut, Drop;
    if |s.directories| >= s.limit {
      var oldest := Oldest(s);
      ForgetIsLess(s, oldest);
      DropKeepsBase(s, GoneWith(s, oldest));
      RoomIsBounded(Forget(s, oldest));
    }
  }

  lemma UseIsBounded(s: Engine, dir: Path)
    requires Bounded(s) && dir in s.directories
    ensures Bounded(Use(s, dir)) && Use(s, dir).limit == s.limit
  {
    UseLimit(s, dir);
    hide Use, IndexOk, KernelOk, UsesBut;
    UseKeepsBase(s, dir);
    UseNames(s, dir);
    SameSize(s.directories, Use(s, dir).directories);
  }

  lemma UseLimit(s: Engine, dir: Path)
    requires dir in s.directories
    ensures Use(s, dir).limit == s.limit
  {
  }

  lemma InsertIsBounded(s: Engine, dir: Path, inode: Inode, root: Option<Path>)
    requires Base(s) && dir !in s.directories && |s.directories| < s.limit
    ensures dir in Insert(s, dir, inode, root).directories
    ensures var u := Use(Insert(s, dir, inode, root), dir); Bounded(u) && u.limit == s.limit && dir in u.directories && u.directories[dir].root == root
  {
    hide Use, Insert, Names, IndexOk, KernelOk, UsesBut;
    InsertKeepsBase(s, dir, inode, root);
    InsertedIs(s, dir, inode, root);
    RootOfNames(Use(Insert(s, dir, inode, root), dir), dir, root);
  }

  lemma AskRootIsBounded(s: Engine, disk: Disk, root: Path)
    requires Bounded(s)
    ensures Bounded(AskRoot(s, disk, root).0) && AskRoot(s, disk, root).0.limit == s.limit
  {
    hide Use, Insert, MakeRoom, IndexOk, KernelOk, UsesBut;
    if root in s.directories {
      UseIsBounded(s, root);
    } else {
      RoomIsBounded(s);
      NotInRoom(s, root);
      if disk.inodeOf(root).Some? {
        InsertIsBounded(MakeRoom(s), root, disk.inodeOf(root).value, disk.rootOf(root));
      }
    }
  }

  lemma {:induction false} AskRootsAreBounded(s: Engine, disk: Disk, roots: seq<Path>)
    requires Bounded(s)
    ensures Bounded(AskRoots(s, disk, roots))
  {
    hide Bounded, AskRoot;
    LimitIsTwo(s);
    if roots != [] {
      AskRootsAreBounded(s, disk, roots[..|roots| - 1]);
      LimitIsTwo(AskRoots(s, disk, roots[..|roots| - 1]));
      AskRootIsBounded(AskRoots(s, disk, roots[..|roots| - 1]), disk, roots[|roots| - 1]);
    }
  }

  lemma LimitIsTwo(s: Engine)
    requires Base(s) || Bounded(s)
    ensures 2 <= s.limit
  {
  }

  lemma AskIsBounded(s: Engine, disk: Disk, dir: Path)
    requires Bounded(s)
    ensures Bounded(Ask(s, disk, dir).0)
  {
    hide Use, Insert, MakeRoom, AskRoot, IndexOk, KernelOk, UsesBut;
    LimitIsTwo(s);
    if dir in s.directories {
      UseIsBounded(s, dir);
    } else {
      RoomIsBounded(s);
      NotInRoom(s, dir);
      if disk.inodeOf(dir).Some? {
        InsertIsBounded(MakeRoom(s), dir, disk.inodeOf(dir).value, disk.rootOf(dir));
        var own, root := Own(s, disk, dir), disk.rootOf(dir);
        if root.Some? && root.value != dir {
          AskRootIsBounded(own, disk, root.value);
          var rooted := AskRoot(own, disk, root.value).0;
          if dir in rooted.directories {
            RootIsBounded(rooted, dir, root);
            UseIsBounded(rooted.(directories := rooted.directories[dir := rooted.directories[dir].(root := root)]), dir);
          }
        }
      }
    }
  }

  lemma RootIsBounded(s: Engine, dir: Path, root: Option<Path>)
    requires Bounded(s) && dir in s.directories
    ensures Bounded(s.(directories := s.directories[dir := s.directories[dir].(root := root)]))
  {
    var u := s.(directories := s.directories[dir := s.directories[dir].(root := root)]);
    assert u.directories.Keys == s.directories.Keys;
    WorkedOutIndex(s, u);
    SameSize(s.directories, u.directories);
    hide IndexOk, KernelOk, UsesBut;
  }

  lemma StepIsBounded(s: Engine, event: Event)
    requires Bounded(s)
    ensures Bounded(Step(s, event))
  {
    hide Ask, AskRoots, WorkedOut, Forgotten, IndexOk, KernelOk, UsesBut;
    match event
    case Asked(disk, dir) => AskIsBounded(s, disk, dir);
    case Told(disk, notices, roots) =>
      var u := Forgotten(s, notices);
      ForgottenIsBase(s, notices);
      WorkedOutKeepsBase(u, disk, Suspect(s, notices));
      WorkedOutSize(u, disk, Suspect(s, notices));
      AskRootsAreBounded(WorkedOut(u, disk, Suspect(s, notices)), disk, roots);
  }

  lemma {:induction false} RunIsBounded(s: Engine, events: seq<Event>, u: Engine)
    requires Bounded(s) && Happened(s, events, u)
    ensures Bounded(u)
    decreases |events|
  {
    hide Bounded, Happens, Step;
    if events != [] {
      StepIsBounded(s, events[0]);
      RunIsBounded(Step(s, events[0]), events[1..], u);
    }
  }

  /**
    Over every run, whatever went wrong in it: the cache is within its limit and the index of watches
    exact; and when some was not told next, every answer is what the disk says then, and the
    cache is as it should be again when each root named comes into it.
  */
  lemma AnyRunIsRepaired(limit: nat, events: seq<Event>, s: Engine, disk: Disk, notices: seq<Notice>, roots: seq<Path>)
    requires Happened(New(limit), events, s)
    ensures |s.directories| <= s.limit && IndexOk(s) && KernelOk(s) && 2 <= s.limit
    ensures disk.Sound() && Overflow in notices && AreRootsOf(s, disk, notices, roots) ==>
              && Current(ReadAll(s, disk, notices, roots), disk)
              && (EachComes(WorkedOutOf(s, disk, notices), disk, roots) ==> Inv(ReadAll(s, disk, notices, roots)))
  {
    hide Happened, Happens, Step, EachComes, Current, ReadAll, WorkedOutOf, AreRootsOf, IndexOk, KernelOk, UsesBut, New, Rooted;
    NewIsOk(limit);
    RunIsBounded(New(limit), events, s);
    if disk.Sound() && Overflow in notices && AreRootsOf(s, disk, notices, roots) {
      OverflowRepairs(s, disk, notices, roots);
    }
  }

  // ---------------------------------------------------------------- a stale answer of a root

  /** The whole disk is a root, and a directory in it is marked too by now, which is not told yet. */
  function InnerToo(): Disk {
    Disk(p => if p == "/r" || p == "/r/d" then Some("/r") else Some("/"),
         p => Some(Inode(if p == "/" then 1 else if p == "/r" then 2 else 3)))
  }

  /** The directory was asked about before it was marked. */
  function BeforeMark(): Engine {
    Engine(3,
           map["/r" := Directory(Watch(0), Some("/"), 3), "/" := Directory(Watch(1), Some("/"), 4)],
           map[Watch(0) := ["/r"], Watch(1) := ["/"]],
           4,
           map[Inode(2) := Watch(0), Inode(1) := Watch(1)],
           2)
  }

  lemma BeforeMarkIndex()
    ensures IndexOk(BeforeMark())
  {
  }

  lemma BeforeMarkKernel()
    ensures KernelOk(BeforeMark())
  {
    var s := BeforeMark();
    assert s.kernel[Inode(2)] == Watch(0) && s.kernel[Inode(1)] == Watch(1);
  }

  lemma BeforeMarkIsOk()
    ensures BeforeMark().limit == 3 && Inv(BeforeMark()) && MakeRoom(BeforeMark()) == BeforeMark()
  {
    hide IndexOk, KernelOk;
    BeforeMarkIndex();
    BeforeMarkKernel();
    var s := BeforeMark();
    assert s.directories.Keys == {"/r", "/"};
    assert |s.directories| == |s.directories.Keys|;
  }

  /** Then a directory in it is asked about: it names the marked one, whose own answer is the old one. */
  function AfterMark(): map<Path, Directory> {
    map["/r" := Directory(Watch(0), Some("/"), 10), "/" := Directory(Watch(1), Some("/"), 8), "/r/d" := Directory(Watch(2), Some("/r"), 9)]
  }

  lemma AddedAfterMark()
    ensures var own := Use(Insert(BeforeMark(), "/r/d", Inode(3), Some("/r")), "/r/d");
            && own.clock == 6
            && own.directories == map["/r" := Directory(Watch(0), Some("/"), 6), "/" := Directory(Watch(1), Some("/"), 4), "/r/d" := Directory(Watch(2), Some("/r"), 5)]
  {
  }

  lemma UsedTwice(own: Engine)
    requires own.clock == 6
    requires own.directories == map["/r" := Directory(Watch(0), Some("/"), 6), "/" := Directory(Watch(1), Some("/"), 4), "/r/d" := Directory(Watch(2), Some("/r"), 5)]
    ensures "/r" in own.directories && "/r/d" in Use(own, "/r").directories
    ensures Use(Use(own, "/r"), "/r/d").directories == AfterMark()
    ensures Use(own, "/r").directories["/r/d"] == Directory(Watch(2), Some("/r"), 5)
  {
  }

  lemma InnerIsSound()
    ensures InnerToo().Sound()
    ensures InnerToo().rootOf("/r/d") == Some("/r") && InnerToo().inodeOf("/r/d") == Some(Inode(3)) && "/r/d" !in BeforeMark().directories
  {
  }

  lemma AskedAfterMark()
    ensures Ask(BeforeMark(), InnerToo(), "/r/d").0.directories == AfterMark()
  {
    hide MakeRoom, Use, Insert, InnerToo, BeforeMark, Inv, Ask, AfterMark;
    var s, disk := BeforeMark(), InnerToo();
    BeforeMarkIsOk();
    InnerIsSound();
    OwnUses(s, disk, "/r/d");
    OwnStays(s, disk, "/r/d");
    AddedAfterMark();
    UsedTwice(Own(s, disk, "/r/d"));
  }

  /**
    A root whose own cached answer is stale: the least recently used is a root that another
    answer depends on, and when it goes, an answer is left whose root is not cached at all.
  */
  lemma StaleRootIsLost()
    ensures Inv(BeforeMark()) && InnerToo().Sound()
    ensures var u := Ask(BeforeMark(), InnerToo(), "/r/d").0;
            && IsOldest(u, "/") && Names(u, "/r", "/")
            && Names(Forget(u, "/"), "/r/d", "/r") && "/r" !in Forget(u, "/").directories
  {
    hide Ask, Inv, InnerToo, BeforeMark, AfterMark, Forget, Names, IsOldest, MakeRoom;
    BeforeMarkIsOk();
    InnerIsSound();
    AskedAfterMark();
    OuterTakesIt(Ask(BeforeMark(), InnerToo(), "/r/d").0);
  }

  lemma OuterTakesIt(u: Engine)
    requires u.directories == AfterMark()
    ensures IsOldest(u, "/") && Names(u, "/r", "/") && Names(Forget(u, "/"), "/r/d", "/r") && "/r" !in Forget(u, "/").directories
  {
    assert Names(u, "/r", "/") && Names(u, "/", "/") && !Names(u, "/r/d", "/");
    assert "/r" in GoneWith(u, "/") && "/r/d" !in GoneWith(u, "/");
    assert u.directories["/r/d"].root == Some("/r");
  }

  // ---------------------------------------------------------------- a root whose watch is of another directory

  /** "/m" and "/m/r" in it, no roots. */
  function Plain(): Disk {
    Disk(p => None, p => Some(Inode(if p == "/m" then 1 else 2)))
  }

  /** "/m" was moved away and another one is there, in which "/m/r" is a root; "/l" is a link to that root. */
  function Replaced(): Disk {
    Disk(p => if p == "/m/r" || p == "/l" then Some("/m/r") else None, p => Some(Inode(if p == "/m" then 3 else 4)))
  }

  /** Both were asked about before. */
  function BothCached(): Engine {
    Engine(3,
           map["/m" := Directory(Watch(0), None, 1), "/m/r" := Directory(Watch(1), None, 2)],
           map[Watch(0) := ["/m"], Watch(1) := ["/m/r"]],
           2,
           map[Inode(1) := Watch(0), Inode(2) := Watch(1)],
           2)
  }

  /** Then the link was, after the move: its root is cached, with a watch of the directory that is elsewhere now. */
  function LinkCached(): Engine {
    Engine(3,
           map["/m" := Directory(Watch(0), None, 1), "/m/r" := Directory(Watch(1), None, 7), "/l" := Directory(Watch(2), Some("/m/r"), 6)],
           map[Watch(0) := ["/m"], Watch(1) := ["/m/r"], Watch(2) := ["/l"]],
           7,
           map[Inode(1) := Watch(0), Inode(2) := Watch(1), Inode(4) := Watch(2)],
           3)
  }

  /** The move is all that was told of it: a watch of the new root there is none. */
  const MOVED: seq<Notice> := [Gone(Watch(0))]

  function OneCached(): Engine {
    Engine(3, map["/m" := Directory(Watch(0), None, 1)], map[Watch(0) := ["/m"]], 1, map[Inode(1) := Watch(0)], 1)
  }

  lemma FirstIsAdded()
    ensures Use(Insert(New(3), "/m", Inode(1), None), "/m") == OneCached()
  {
    var u, s := Use(Insert(New(3), "/m", Inode(1), None), "/m"), OneCached();
    assert [] + ["/m"] == ["/m"];
    assert u.directories == s.directories && u.pathsByWatch == s.pathsByWatch && u.kernel == s.kernel;
  }

  lemma SecondIsAdded()
    ensures Use(Insert(OneCached(), "/m/r", Inode(2), None), "/m/r") == BothCached()
  {
    var u, s := Use(Insert(OneCached(), "/m/r", Inode(2), None), "/m/r"), BothCached();
    assert [] + ["/m/r"] == ["/m/r"];
    assert u.directories == s.directories && u.pathsByWatch == s.pathsByWatch && u.kernel == s.kernel;
  }

  lemma LinkIsAdded()
    ensures var own := Use(Insert(BothCached(), "/l", Inode(4), Some("/m/r")), "/l");
            && own.directories == map["/m" := Directory(Watch(0), None, 1), "/m/r" := Directory(Watch(1), None, 4), "/l" := Directory(Watch(2), Some("/m/r"), 3)]
            && own.pathsByWatch == LinkCached().pathsByWatch && own.kernel == LinkCached().kernel
            && own.clock == 4 && own.limit == 3 && own.nextWatch == 3
  {
    assert "/l"[1] != "/m"[1];
    assert [] + ["/l"] == ["/l"];
    var inserted := Insert(BothCached(), "/l", Inode(4), Some("/m/r"));
    assert inserted.directories == map["/m" := Directory(Watch(0), None, 1), "/m/r" := Directory(Watch(1), None, 2), "/l" := Directory(Watch(2), Some("/m/r"), 0)];
    assert inserted.pathsByWatch == LinkCached().pathsByWatch;
    hide Insert;
  }

  lemma LinkIsUsed(own: Engine)
    requires own.directories == map["/m" := Directory(Watch(0), None, 1), "/m/r" := Directory(Watch(1), None, 4), "/l" := Directory(Watch(2), Some("/m/r"), 3)]
    requires own.pathsByWatch == LinkCached().pathsByWatch && own.kernel == LinkCached().kernel && own.clock == 4 && own.limit == 3 && own.nextWatch == 3
    ensures "/m/r" in own.directories && "/l" in Use(own, "/m/r").directories
    ensures Use(own, "/m/r").directories["/l"].root == Some("/m/r") && Use(Use(own, "/m/r"), "/l") == LinkCached()
  {
    assert "/l"[1] != "/m"[1];
    var rooted := Use(own, "/m/r");
    assert rooted.directories == map["/m" := Directory(Watch(0), None, 1), "/m/r" := Directory(Watch(1), None, 5), "/l" := Directory(Watch(2), Some("/m/r"), 3)];
    assert Use(rooted, "/l").directories == LinkCached().directories;
  }

  lemma FirstIsAsked()
    ensures New(3).limit == 3 && Ask(New(3), Plain(), "/m").0 == OneCached()
  {
    FirstIsAdded();
    ThereIsRoom(New(3));
    hide Use, Insert, MakeRoom;
  }

  lemma SecondIsAsked()
    ensures OneCached().limit == 3 && Ask(OneCached(), Plain(), "/m/r").0 == BothCached()
  {
    SecondIsAdded();
    assert OneCached().directories.Keys == {"/m"};
    assert |OneCached().directories| == |OneCached().directories.Keys|;
    ThereIsRoom(OneCached());
    hide Use, Insert, MakeRoom;
  }

  lemma BothHaveRoom()
    ensures BothCached().limit == 3 && MakeRoom(BothCached()) == BothCached() && NamesNoOther(BothCached(), "/m/r") && "/l" !in BothCached().directories
  {
    var s := BothCached();
    assert "/l"[1] != "/m"[1];
    assert s.directories.Keys == {"/m", "/m/r"};
    assert |s.directories| == |s.directories.Keys|;
    ThereIsRoom(s);
    hide MakeRoom;
  }

  lemma ReplacedIs()
    ensures Replaced().Sound() && Replaced().rootOf("/l") == Some("/m/r") && Replaced().rootOf("/m/r") == Some("/m/r") && Replaced().inodeOf("/l") == Some(Inode(4))
  {
    assert "/l"[1] != "/m"[1];
  }

  lemma LinkIsAsked()
    ensures BothCached().limit > 0 && Ask(BothCached(), Replaced(), "/l").0 == LinkCached() && WillBeBacked(BothCached(), Replaced(), "/l")
  {
    hide MakeRoom, Use, Insert, BothCached, LinkCached, Replaced, NamesNoOther;
    BothHaveRoom();
    ReplacedIs();
    var s := BothCached();
    InsertHas(s, "/l", Inode(4), Some("/m/r"));
    var own := Use(Insert(s, "/l", Inode(4), Some("/m/r")), "/l");
    LinkIsAdded();
    LinkIsUsed(own);
    NoOtherIsCached(s, "/m/r");
    AskCached(own, Replaced(), "/m/r");
    var rooted := Use(own, "/m/r");
    assert rooted.directories["/l" := rooted.directories["/l"].(root := Some("/m/r"))] == rooted.directories;
  }

  lemma NoOtherIsCached(s: Engine, root: Path)
    requires NamesNoOther(s, root)
    ensures root in s.directories
  {
  }

  lemma PlainFits(s: Engine, dir: Path)
    requires s.limit > 0
    ensures Fits(s, Asked(Plain(), dir))
  {
    hide MakeRoom;
    assert Plain().rootOf(dir) == None && Plain().Sound();
  }

  /** A question that meets its condition, before a run that does. */
  lemma OneMoreAsked(s: Engine, disk: Disk, dir: Path, rest: seq<Event>, u: Engine)
    requires s.limit > 0 && Fits(s, Asked(disk, dir))
    requires if rest == [] then Ask(s, disk, dir).0 == u else Reachable(Ask(s, disk, dir).0, rest, u)
    ensures Reachable(s, [Asked(disk, dir)] + rest, u)
  {
    hide Ask, WillBeBacked;
    assert ([Asked(disk, dir)] + rest)[1..] == rest;
  }

  /** A run of the program, each question of which meets its condition, comes to it. */
  lemma LinkIsReached()
    ensures var asked := [Asked(Plain(), "/m"), Asked(Plain(), "/m/r"), Asked(Replaced(), "/l")];
            Reachable(New(3), asked, LinkCached())
  {
    hide Ask, WillBeBacked, LinkCached, BothCached, OneCached, Replaced, Reachable, New;
    FirstIsAsked();
    SecondIsAsked();
    LinkIsAsked();
    ReplacedIs();
    PlainFits(New(3), "/m");
    PlainFits(OneCached(), "/m/r");
    var last, others := [Asked(Replaced(), "/l")], [Asked(Plain(), "/m/r"), Asked(Replaced(), "/l")];
    OneMoreAsked(BothCached(), Replaced(), "/l", [], LinkCached());
    assert [Asked(Replaced(), "/l")] + [] == last;
    OneMoreAsked(OneCached(), Plain(), "/m/r", last, LinkCached());
    assert [Asked(Plain(), "/m/r")] + last == others;
    OneMoreAsked(New(3), Plain(), "/m", others, LinkCached());
    assert [Asked(Plain(), "/m")] + others == [Asked(Plain(), "/m"), Asked(Plain(), "/m/r"), Asked(Replaced(), "/l")];
  }

  lemma LinkLiesOutside()
    ensures IsInside("/m/r", "/m") && IsInside("/m", "/m") && !IsInside("/l", "/m")
  {
    assert "/m/r"[..3] == "/m" + "/";
  }

  /** Only "/m" left, and no mark is told. */
  lemma MovedIs()
    ensures GoneOf(LinkCached(), MOVED) == {"/m"} && Suspect(LinkCached(), MOVED) == {}
  {
    var s := LinkCached();
    assert PathsOf(s, Watch(0)) == ["/m"];
    hide LinkCached, PathsOf;
    assert Gone(Watch(0)) in MOVED && forall n <- MOVED :: n == Gone(Watch(0));
    hide MOVED;
    assert "/m" in PathsOf(s, Gone(Watch(0)).watch);
  }

  lemma LinkDoesNotDepend(s: Engine)
    requires s.directories == LinkCached().directories
    ensures Depends(s, {"/m"}, "/m") && Depends(s, {"/m"}, "/m/r") && !Depends(s, {"/m"}, "/l") && !Names(s, "/m/r", "/m/r") && Names(s, "/l", "/m/r")
  {
    hide IsInside;
    LinkLiesOutside();
    assert "/l"[1] != "/m"[1];
    assert "/m" in {"/m"};
  }

  lemma LinkStays()
    requires Inv(LinkCached())
    ensures var u := Forgotten(LinkCached(), MOVED); "/l" in u.directories && Names(u, "/l", "/m/r") && "/m/r" !in u.directories
  {
    hide IsInside, GoneOf, MOVED, LinkCached, Depends, Names, Forgotten, IndexOk, KernelOk, UsesBut;
    MovedIs();
    var s := LinkCached();
    LinkDoesNotDepend(s);
    ForgottenIs(s, MOVED);
    ForgetTreesNames(s, {"/m"});
    GoneIff(s, {"/m"}, "/m/r");
    LinkIsBehind(s);
    LeftBehindIff(s, {"/m"}, "/l", "/m/r");
    NamesIsCached(Forgotten(s, MOVED), "/l", "/m/r");
  }

  lemma LinkIsBehind(s: Engine)
    requires s.directories == LinkCached().directories
    ensures IsLeftBehind(s, {"/m"}, "/l", "/m/r")
  {
    hide IsInside, Depends;
    LinkLiesOutside();
    LinkDoesNotDepend(s);
    assert IsWithin("/m/r", {"/m"});
  }

  lemma NamesIsCached(s: Engine, path: Path, root: Path)
    requires Names(s, path, root)
    ensures path in s.directories
  {
  }

  /** With nothing told nothing is worked out again. */
  lemma NothingIsTold(s: Engine, disk: Disk)
    requires s.limit > 0
    ensures AreTheRoots(s, disk, {}, []) && ResolveAgain(s, disk, {}, []) == s
  {
    assert WorkedOut(s, disk, {}).directories == s.directories;
    assert RootsNamed(s, disk, {}) == {};
    assert SetOf([]) == {};
  }

  /**
    "/m" is told to have left, and nothing else: the root goes with it, as its own answer was that
    it is none, and the link's answer is left, naming a root that is not cached; asking about the
    link again does not change that.
  */
  lemma LinkIsLeftBehind()
    ensures Inv(LinkCached()) && "/m" in LinkCached().directories && Replaced().Sound() && AreRootsOf(LinkCached(), Replaced(), MOVED, [])
    ensures var u := ReadAll(LinkCached(), Replaced(), MOVED, []);
            && Names(u, "/l", "/m/r") && "/m/r" !in u.directories
            && "/l" in u.directories && Names(Use(u, "/l"), "/l", "/m/r") && "/m/r" !in Use(u, "/l").directories
  {
    assert "/m" in LinkCached().directories;
    hide LinkCached, Forgotten, MOVED, Suspect, Replaced, Plain, Inv, Reachable, New, Names, Use, AreTheRoots, ResolveAgain;
    LinkIsReached();
    NewIsOk(3);
    RunKeeps(New(3), [Asked(Plain(), "/m"), Asked(Plain(), "/m/r"), Asked(Replaced(), "/l")], LinkCached());
    LimitIsPositive(LinkCached());
    LinkStays();
    MovedIs();
    ReplacedIs();
    var v := Forgotten(LinkCached(), MOVED);
    ForgottenIs(LinkCached(), MOVED);
    ForgetTreesNames(LinkCached(), {"/m"});
    NothingIsTold(v, Replaced());
    UseNames(v, "/l");
  }

  // ---------------------------------------------------------------- a link below a directory that is marked

  /** "/l" leads to "/m/a"; what is below it is not asked about. */
  function LinkLeads(): Path -> Path {
    (p: Path) => if p == "/l" then "/m/a" else if Reaches(p, "/l") then "" else p
  }

  function NoMarks(): Path -> bool {
    p => false
  }

  function OneMark(): Path -> bool {
    p => p == "/m"
  }

  /** "/m", and the link into it, both asked about before there were marks. */
  function LinkUnmarked(): Engine {
    Engine(3,
           map["/m" := Directory(Watch(0), None, 1), "/l" := Directory(Watch(1), None, 2)],
           map[Watch(0) := ["/m"], Watch(1) := ["/l"]],
           2,
           map[Inode(1) := Watch(0), Inode(2) := Watch(1)],
           2)
  }

  const MARKED: seq<Notice> := [MarkChanged(Watch(0))]

  lemma LinkIsSecond()
    ensures Use(Insert(OneCached(), "/l", Inode(2), None), "/l") == LinkUnmarked()
  {
    assert "/l"[1] != "/m"[1];
    var u, s := Use(Insert(OneCached(), "/l", Inode(2), None), "/l"), LinkUnmarked();
    assert [] + ["/l"] == ["/l"];
    assert u.directories == s.directories && u.pathsByWatch == s.pathsByWatch && u.kernel == s.kernel;
  }

  lemma LinkIsAskedPlainly()
    ensures Ask(OneCached(), Plain(), "/l").0 == LinkUnmarked()
  {
    LinkIsSecond();
    assert "/l"[1] != "/m"[1];
    assert OneCached().directories.Keys == {"/m"};
    assert |OneCached().directories| == |OneCached().directories.Keys|;
    ThereIsRoom(OneCached());
    hide Use, Insert, MakeRoom;
  }

  lemma LinkUnmarkedIsReached()
    ensures Reachable(New(3), [Asked(Plain(), "/m"), Asked(Plain(), "/l")], LinkUnmarked())
  {
    hide Ask, WillBeBacked, LinkUnmarked, OneCached, Reachable, New;
    FirstIsAsked();
    SecondIsAsked();
    LinkIsAskedPlainly();
    PlainFits(New(3), "/m");
    PlainFits(OneCached(), "/l");
    var last := [Asked(Plain(), "/l")];
    OneMoreAsked(OneCached(), Plain(), "/l", [], LinkUnmarked());
    assert [Asked(Plain(), "/l")] + [] == last;
    OneMoreAsked(New(3), Plain(), "/m", last, LinkUnmarked());
    assert [Asked(Plain(), "/m")] + last == [Asked(Plain(), "/m"), Asked(Plain(), "/l")];
  }

  lemma ParentsAre()
    ensures Parent("/m/a") == "/m" && Parent("/m") == "/" && Parent("/") == ""
  {
    assert WithoutTrailingSlashes("/m/a") == "/m/a" && WithoutTrailingSlashes("/m") == "/m" && WithoutTrailingSlashes("/") == "/";
    assert "/m/a"[..3] == "/m/" && LastSlash("/m/") == Some(2);
    assert LastSlash("/m/a") == Some(2);
    assert "/m"[..1] == "/" && LastSlash("/") == Some(0);
    assert LastSlash("/m") == Some(0);
    assert "/m/a"[..2] == "/m";
  }

  lemma LinkResolves()
    ensures Resolves(LinkLeads())
    ensures FindRoot(OneMark(), "/m/a") == Some("/m") && FindRoot(OneMark(), "/m") == Some("/m")
  {
    ParentsAre();
    assert "/l"[1] != "/m"[1];
    forall p, d | Reaches(LinkLeads()(p), d)
      ensures LinkLeads()(d) == d
    {
      if p == "/l" {
        assert Reaches("/m", d) || d == "/m/a";
        assert d == "/m/a" || d == "/m" || d == "/";
        assert !Reaches("/m/a", "/l");
      } else if Reaches(d, "/l") {
        ReachesThen(p, d, "/l");
      }
    }
  }

  lemma {:induction false} ReachesThen(p: Path, q: Path, r: Path)
    requires Reaches(p, q) && Reaches(q, r)
    ensures Reaches(p, r)
    decreases |p|
  {
    if p != q {
      ReachesThen(Parent(p), q, r);
    }
  }

  function MarkedDisk(): Disk {
    DiskOf(OneMark(), LinkLeads(), p => Some(Inode(if p == "/m" then 1 else 2)))
  }

  lemma MarkIsTold()
    ensures MarkedOf(LinkUnmarked(), MARKED) == {"/m"} && GoneOf(LinkUnmarked(), MARKED) == {} && Overflow !in MARKED
  {
    var s := LinkUnmarked();
    assert PathsOf(s, Watch(0)) == ["/m"];
    hide LinkUnmarked, PathsOf;
    assert MarkChanged(Watch(0)) in MARKED && forall n <- MARKED :: n == MarkChanged(Watch(0));
    hide MARKED;
    assert "/m" in PathsOf(s, MarkChanged(Watch(0)).watch);
  }

  lemma NobodyIsForgotten()
    ensures Forgotten(LinkUnmarked(), MARKED).directories == LinkUnmarked().directories && Suspect(LinkUnmarked(), MARKED) == {"/m"}
  {
    hide MARKED, LinkUnmarked;
    MarkIsTold();
    ForgetTreesNames(LinkUnmarked(), {});
    assert Doomed(LinkUnmarked(), {}) == {};
    assert GoneWithAll(LinkUnmarked(), {}) == {};
  }

  lemma MarkedSays()
    ensures MarkedDisk().rootOf("/m") == Some("/m") && LinkLeads()("/l") == "/m/a"
  {
    ParentsAre();
    LinkResolves();
    assert "/l"[1] != "/m"[1];
    assert !Reaches("/m", "/l");
    hide FindRoot, Reaches;
  }

  lemma OnlyItsOwnDepends(u: Engine)
    requires u.directories == LinkUnmarked().directories
    ensures Depends(u, {"/m"}, "/m") && !Depends(u, {"/m"}, "/l") && u.directories.Keys == {"/m", "/l"}
  {
    hide IsInside;
    LinkLiesOutside();
    assert "/l"[1] != "/m"[1];
    assert "/m" in {"/m"};
  }

  /** Only the marked directory is worked out again, and it names no other. */
  lemma OneIsWorkedOut(u: Engine, disk: Disk)
    requires u.limit > 0 && u.directories.Keys == {"/m", "/l"} && u.directories["/l"].root.None?
    requires Depends(u, {"/m"}, "/m") && !Depends(u, {"/m"}, "/l") && disk.rootOf("/m") == Some("/m")
    ensures AreTheRoots(u, disk, {"/m"}, [])
    ensures var w := ResolveAgain(u, disk, {"/m"}, []); "/l" in w.directories && w.directories["/l"].root.None?
  {
    hide Depends;
    assert RootsNamed(u, disk, {"/m"}) == {};
    assert SetOf([]) == {};
  }

  lemma LinkIsThere()
    ensures var s := LinkUnmarked(); s.limit == 3 && "/l" in s.directories && s.directories["/l"].root.None? && "/m" in s.directories && s.directories["/m"].root.None?
    ensures forall p <- LinkUnmarked().directories :: LinkUnmarked().directories[p].root.None?
  {
  }

  lemma {:induction false} NoneIsFound(dir: Path)
    ensures FindRoot(NoMarks(), dir).None?
    decreases |dir|
  {
    if dir != "" {
      NoneIsFound(Parent(dir));
    }
  }

  lemma LinkIsInv()
    ensures Inv(LinkUnmarked())
  {
    hide Reachable, Inv, LinkUnmarked, New;
    LinkUnmarkedIsReached();
    NewIsOk(3);
    RunKeeps(New(3), [Asked(Plain(), "/m"), Asked(Plain(), "/l")], LinkUnmarked());
  }

  lemma LinkIsAnswered()
    ensures AreAnswered(LinkUnmarked(), NoMarks(), LinkLeads()) && AllAreTold(LinkUnmarked(), NoMarks(), OneMark(), MARKED)
  {
    assert LinkUnmarked().directories["/m"].watch == Watch(0) && MarkChanged(Watch(0)) in MARKED;
    LinkIsThere();
    hide LinkUnmarked, MARKED, FindRoot, LinkLeads;
    forall p
      ensures FindRoot(NoMarks(), LinkLeads()(p)).None?
    {
      NoneIsFound(LinkLeads()(p));
    }
  }

  /**
    The directory above where the link leads is marked, and its watch tells it; the link, which is not below
    that directory by its own name, is missed: its answer goes on to be that it is in no root.
  */
  lemma LinkIsMissed()
    ensures Inv(LinkUnmarked()) && Resolves(LinkLeads())
    ensures AreAnswered(LinkUnmarked(), NoMarks(), LinkLeads()) && AllAreTold(LinkUnmarked(), NoMarks(), OneMark(), MARKED)
    ensures AreRootsOf(LinkUnmarked(), MarkedDisk(), MARKED, [])
    ensures LinkUnmarked().limit > 0
    ensures var u := ReadAll(LinkUnmarked(), MarkedDisk(), MARKED, []);
            "/l" in u.directories && u.directories["/l"].root.None? && FindRoot(OneMark(), LinkLeads()("/l")) == Some("/m")
  {
    hide LinkUnmarked, MARKED, Inv, Forgotten, Suspect, MarkedDisk, AreAnswered, AllAreTold, Resolves, AreTheRoots, ResolveAgain, FindRoot, Reaches, Depends, LinkLeads;
    LinkIsInv();
    LinkIsAnswered();
    LinkResolves();
    LinkIsThere();
    MarkedSays();
    NobodyIsForgotten();
    var u := Forgotten(LinkUnmarked(), MARKED);
    ForgottenIs(LinkUnmarked(), MARKED);
    ForgetTreesNames(LinkUnmarked(), GoneOf(LinkUnmarked(), MARKED));
    OnlyItsOwnDepends(u);
    OneIsWorkedOut(u, MarkedDisk());
  }
}
