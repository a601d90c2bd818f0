/**
  The rows are a plain folder and a list of what is bound: every change, with all its
  statements and triggers, does to the two what it would do to a tree of names, and is
  refused exactly where the tree would refuse it.
*/
module ItemFolder {
  import opened Wrappers
  import opened ItemTree
  import opened ItemTable
  import opened ItemChanges
  import opened ItemInvariant
  import opened ItemRuns
  import opened ItemStamps

  /** What the folder shows of an item. */
  datatype Entry = Entry(kind: ItemKind, place: ItemPlace, content: Option<ContentVersion>, contentBeforeWrite: Option<ContentVersion>,
                         presence: ContentPresence, isNameIgnored: bool, isExecutable: bool)

  type Folder = map<ItemId, Entry>

  /** Which row has which item of OneDrive, with all that goes with it. */
  type Bound = map<ItemId, OneDriveSide>

  function EntryOf(item: Item): Entry
    requires item.localPlace.Some?
  {
    Entry(item.kind, item.localPlace.value, item.localContent, item.contentBeforeWrite, item.contentPresence, item.isNameIgnored, item.isExecutable)
  }

  function FolderOf(rows: Rows): Folder {
    map id | id in rows && rows[id].localPlace.Some? :: EntryOf(rows[id])
  }

  function BoundOf(rows: Rows): Bound {
    map id | id in rows && rows[id].binding.Some? :: SideOf(rows[id])
  }

  // ---------------------------------------------------------------- a plain folder

  function TreeOf(f: Folder): Parents {
    map id | id in f :: f[id].place.parent
  }

  predicate IsDirectory(f: Folder, id: ItemId) {
    id == ROOT || (id in f && f[id].kind.Directory?)
  }

  predicate IsFreeIn(f: Folder, place: ItemPlace) {
    forall id <- f :: f[id].place != place
  }

  predicate IsEmptyIn(f: Folder, id: ItemId) {
    forall c <- f :: f[c].place.parent != id
  }

  /** An item may be at a place: its directory is one, the name is one and free, and the tree stays a tree of bounded depth. */
  ghost predicate MayBeAt(f: Folder, id: ItemId, place: ItemPlace) {
    IsDirectory(f, place.parent) && IsFreeIn(f, place) && IsFileName(place.name) && IsTree(TreeOf(f)[id := place.parent])
  }

  /** How often a content was changed here since it was last told by its hash. */
  ghost function ChangesIn(content: ContentVersion): nat {
    match content
    case Hashed(_, _, _, _, _) => 0
    case ChangedHere(_, _, _, changeCount) => changeCount
  }

  /** What a change does to a plain folder, where a made item gets the id `made`; none when it may not be done. */
  ghost function Changed(f: Folder, change: LocalVersionChange, made: ItemId): Option<Folder> {
    match change
    case Made(kind, place, content, isNameIgnored, _) =>
      if (kind.File? <==> content.Some?) && MayBeAt(f, made, place) then
        Some(f[made := Entry(kind, place, content, None, if kind.File? then OnDisk else NotOnDisk, isNameIgnored, false)])
      else None
    case Moved(item, place, isNameIgnored) =>
      if item in f && MayBeAt(f, item, place) then Some(f[item := f[item].(place := place, isNameIgnored := isNameIgnored)]) else None
    case SavedOver(replacing, saved) =>
      if replacing != saved && replacing in f && saved in f && f[replacing].kind == f[saved].kind && IsEmptyIn(f, saved)
         && IsTree(TreeOf(f)[replacing := f[saved].place.parent])
      then Some((f - {saved})[replacing := f[replacing].(place := f[saved].place, isNameIgnored := f[saved].isNameIgnored)])
      else None
    case Removed(item) => if item in f && IsEmptyIn(f, item) then Some(f - {item}) else None
    case OpenedForWriting(item) =>
      WithContent(f, item, (e: Entry) requires e.content.Some? =>
        e.(content := Some(ChangedHere(e.content.value.size, e.content.value.mtime, e.content.value.mtimeNsec, ChangesIn(e.content.value) + 1)),
           contentBeforeWrite := if e.contentBeforeWrite.Some? then e.contentBeforeWrite else e.content))
    case ClosedChanged(item, size, mtime, mtimeNsec) =>
      WithContent(f, item, (e: Entry) requires e.content.Some? =>
        e.(content := Some(ChangedHere(size, mtime, mtimeNsec, if ChangesIn(e.content.value) == 0 then 1 else ChangesIn(e.content.value))), contentBeforeWrite := None))
    case ClosedUnchanged(item) =>
      WithContent(f, item, (e: Entry) requires e.content.Some? =>
        e.(content := if e.contentBeforeWrite.Some? then e.contentBeforeWrite else e.content, contentBeforeWrite := None))
    case Truncated(item, size, mtime, mtimeNsec) =>
      WithContent(f, item, (e: Entry) requires e.content.Some? =>
        e.(content := Some(ChangedHere(size, mtime, mtimeNsec, ChangesIn(e.content.value) + 1)), contentBeforeWrite := None))
  }

  /** The content of a file changes; of what the folder does not show, nothing does; a directory has none. */
  ghost function WithContent(f: Folder, item: ItemId, next: Entry --> Entry): Option<Folder>
    requires forall e: Entry :: e.content.Some? ==> next.requires(e)
  {
    if item == ROOT then None
    else if item !in f then Some(f)
    else if f[item].content.None? then None
    else Some(f[item := next(f[item])])
  }

  /** Two entries have each the other's place. */
  ghost function Exchanged(f: Folder, first: ItemId, second: ItemId): Option<Folder> {
    if first != second && first in f && second in f
       && IsTree(TreeOf(f)[first := f[second].place.parent]) && IsTree(TreeOf(f)[second := f[first].place.parent])
    then
      Some(f[first := f[first].(place := f[second].place, isNameIgnored := f[second].isNameIgnored)]
            [second := f[second].(place := f[first].place, isNameIgnored := f[first].isNameIgnored)])
    else None
  }

  /** A binding is the row's that has it, but where a file takes it over from one that left. */
  function Rebound(b: Bound, taker: ItemId, giver: ItemId): Bound
    requires giver in b
  {
    (b - {giver})[taker := b[giver]]
  }

  /** What a change does to the bindings: nothing, or a file takes one over: from a file that was removed, or from the one it is saved over, when it has none itself. */
  function Rebinding(f: Folder, b: Bound, change: LocalVersionChange, made: ItemId): Bound {
    match change
    case Made(_, _, _, _, Some(replaced)) => if replaced in b then Rebound(b, made, replaced) else b
    case SavedOver(replacing, saved) => if replacing in f && f[replacing].kind.File? && replacing !in b && saved in b then Rebound(b, replacing, saved) else b
    case _ => b
  }

  /** A made file may replace a file that is bound and agreed on and that the folder does not show. */
  predicate MayReplace(f: Folder, b: Bound, change: LocalVersionChange) {
    change.Made? && change.replaced.Some? ==>
      var replaced := change.replaced.value;
      change.kind.File? && replaced in b && b[replaced].kind.File? && b[replaced].syncedPlace.Some? && replaced !in f
  }

  // ---------------------------------------------------------------- the statements

  lemma PutView(t: Table, id: ItemId, item: Item)
    ensures FolderOf(Put(t, id, item).rows) == if item.localPlace.Some? then FolderOf(t.rows)[id := EntryOf(item)] else FolderOf(t.rows) - {id}
    ensures BoundOf(Put(t, id, item).rows) == if item.binding.Some? then BoundOf(t.rows)[id := SideOf(item)] else BoundOf(t.rows) - {id}
  {
  }

  lemma DeleteView(rows: Rows, id: ItemId)
    ensures FolderOf(rows - {id}) == FolderOf(rows) - {id} && BoundOf(rows - {id}) == BoundOf(rows) - {id}
  {
  }

  lemma TreeIsParents(rows: Rows)
    ensures TreeOf(FolderOf(rows)) == ParentsOf(rows)
  {
  }

  /** The row is written with another place: nothing but its place is another. */
  lemma PlacedView(t: Table, id: ItemId, place: ItemPlace, isNameIgnored: bool)
    requires id in t.rows && t.rows[id].localPlace.Some?
    ensures var u := Put(t, id, AtPlace(t.rows[id], place, isNameIgnored));
            && id in FolderOf(t.rows)
            && FolderOf(u.rows) == FolderOf(t.rows)[id := FolderOf(t.rows)[id].(place := place, isNameIgnored := isNameIgnored)]
            && BoundOf(u.rows) == BoundOf(t.rows)
  {
    PutView(t, id, AtPlace(t.rows[id], place, isNameIgnored));
    hide Put;
  }

  lemma WithoutLocalView(t: Table, id: ItemId)
    requires id in t.rows && t.rows[id].localPlace.Some?
    ensures FolderOf(WithoutLocal(t, id).rows) == FolderOf(t.rows) - {id} && BoundOf(WithoutLocal(t, id).rows) == BoundOf(t.rows)
  {
    if t.rows[id].binding.None? {
      DeleteView(t.rows, id);
    } else {
      PutView(t, id, Hidden(t.rows[id]));
      hide Put;
      assert SideOf(Hidden(t.rows[id])) == SideOf(t.rows[id]);
    }
  }

  lemma TakenOverView(t: Table, taker: ItemId, giver: ItemId)
    requires CanTakeOver(t.rows, taker, giver)
    ensures giver in BoundOf(t.rows)
    ensures FolderOf(TakenOver(t, taker, giver).rows) == FolderOf(t.rows)
    ensures BoundOf(TakenOver(t, taker, giver).rows) == Rebound(BoundOf(t.rows), taker, giver)
  {
    var item := Taking(t.rows[taker], t.rows[giver]);
    DeleteView(t.rows, giver);
    PutView(t.(rows := t.rows - {giver}), taker, item);
    hide Put;
    assert SideOf(item) == SideOf(t.rows[giver]);
    assert EntryOf(item) == EntryOf(t.rows[taker]);
  }

  // ---------------------------------------------------------------- what is asked before a write

  /** A new item fits exactly when the tree with it is one. */
  lemma AddIffTree(p: Parents, item: ItemId, directory: ItemId)
    requires IsTree(p) && item !in p && item != ROOT && (directory in p || directory == ROOT)
    requires forall id <- p :: p[id] != item
    ensures Up(p, directory, MAX_CHAIN + 1).Some?
    ensures |WalkUp(p, directory)| <= MAX_CHAIN <==> IsTree(p[item := directory])
  {
    WalkUpOfTree(p, directory);
    var s, q := WalkUp(p, directory), p[item := directory];
    if |s| <= MAX_CHAIN {
      AddKeepsTree(p, item, directory);
    } else if IsTree(q) && directory != item {
      AbsentIsNotOnWalk(p, s, item);
      ChainCarries(p, q, s);
      assert ([item] + s)[1..] == s;
      LongChainIsNotUp(q, [item] + s, MAX_CHAIN + 1);
    } else if directory == item {
      assert false;
    }
  }

  lemma PlacedIs(t: Table, id: ItemId)
    requires Valid(t)
    ensures FindPlaced(t.rows, id).Ok? <==> id in FolderOf(t.rows)
    ensures id in FolderOf(t.rows) ==> id in t.rows && id != ROOT && t.rows[id].localPlace.Some? && FolderOf(t.rows)[id] == EntryOf(t.rows[id])
    ensures FindPlaced(t.rows, id).Ok? ==> FindPlaced(t.rows, id) == Ok(FolderOf(t.rows)[id].place)
  {
    assert RowOk(t.rows, ROOT, t.rows[ROOT]);
  }

  lemma DirectoryIs(t: Table, id: ItemId)
    requires Valid(t)
    ensures CheckDirectory(t.rows, id).Pass? <==> IsDirectory(FolderOf(t.rows), id)
  {
    assert RowOk(t.rows, ROOT, t.rows[ROOT]);
  }

  lemma EntryIs(rows: Rows)
    ensures forall id <- rows :: rows[id].localPlace.Some? ==> id in FolderOf(rows) && FolderOf(rows)[id].place == rows[id].localPlace.value
    ensures forall id <- FolderOf(rows) :: id in rows && rows[id].localPlace == Some(FolderOf(rows)[id].place)
  {
  }

  lemma FreeIs(rows: Rows, place: ItemPlace)
    ensures IsFree(rows, place) <==> IsFreeIn(FolderOf(rows), place)
  {
    EntryIs(rows);
    hide FolderOf;
    if c :| c in rows && rows[c].localPlace == Some(place) {
      assert FolderOf(rows)[c].place == place;
    }
  }

  lemma EmptyIs(rows: Rows, id: ItemId)
    ensures HoldsNothing(rows, id) <==> IsEmptyIn(FolderOf(rows), id)
  {
    EntryIs(rows);
    hide FolderOf;
    if c :| c in rows && rows[c].localPlace.Some? && rows[c].localPlace.value.parent == id {
      assert FolderOf(rows)[c].place.parent == id;
    }
  }

  lemma HoldIffTree(t: Table, id: ItemId, directory: ItemId)
    requires Valid(t) && id in FolderOf(t.rows) && IsDirectory(FolderOf(t.rows), directory)
    ensures CheckCanHold(t.rows, directory, id).Pass? <==> IsTree(TreeOf(FolderOf(t.rows))[id := directory])
  {
    TreeIsParents(t.rows);
    CanHoldIsChecked(t.rows, directory, id);
    hide IsTree, CheckCanHold, CanHold, RowsOk, RowsUnique, StampsOk;
    CanHoldIffTree(ParentsOf(t.rows), id, directory);
  }

  // ---------------------------------------------------------------- each change

  /** The change is done to the folder, and the bindings are as given; or neither the code nor the folder allows it. */
  ghost predicate Does(t: Table, done: Result<Table, Error>, next: Option<Folder>, bound: Bound) {
    match done
    case Ok(u) => next == Some(FolderOf(u.rows)) && BoundOf(u.rows) == bound
    case Err(_) => next.None?
  }

  predicate MoveChecks(rows: Rows, item: ItemId, place: ItemPlace) {
    && FindPlaced(rows, item).Ok? && CheckDirectory(rows, place.parent).Pass? && CheckCanHold(rows, place.parent, item).Pass?
    && CheckPlaceIsFree(rows, place).Pass? && IsEntryName(place.name)
  }

  lemma MoveChecksAre(t: Table, item: ItemId, place: ItemPlace)
    requires Valid(t)
    ensures MoveChecks(t.rows, item, place) <==> item in FolderOf(t.rows) && MayBeAt(FolderOf(t.rows), item, place)
  {
    hide Valid, IsTree, CheckCanHold, CheckDirectory, FindPlaced, IsFree, IsFreeIn, FolderOf, TreeOf, IsDirectory;
    PlacedIs(t, item);
    DirectoryIs(t, place.parent);
    FreeIs(t.rows, place);
    if item in FolderOf(t.rows) && IsDirectory(FolderOf(t.rows), place.parent) {
      HoldIffTree(t, item, place.parent);
    }
  }

  lemma RefusedMove(t: Table, item: ItemId, place: ItemPlace, isNameIgnored: bool)
    requires !MoveChecks(t.rows, item, place)
    ensures MoveItem(t, item, place, isNameIgnored).Err?
  {
    hide CheckCanHold, CheckDirectory, FindPlaced, IsFree, WriteLocalPlace, IsEntryName;
  }

  lemma MovedIs(t: Table, item: ItemId, place: ItemPlace, isNameIgnored: bool)
    requires Valid(t)
    ensures Does(t, MoveItem(t, item, place, isNameIgnored), Changed(FolderOf(t.rows), Moved(item, place, isNameIgnored), item), BoundOf(t.rows))
  {
    hide Valid, MoveChecks, MayBeAt, FolderOf, BoundOf, MoveItem, Put;
    MoveChecksAre(t, item, place);
    if MoveChecks(t.rows, item, place) {
      MoveWrites(t, item, place, isNameIgnored);
      PlacedView(t, item, place, isNameIgnored);
    } else {
      RefusedMove(t, item, place, isNameIgnored);
    }
  }

  lemma MoveWrites(t: Table, item: ItemId, place: ItemPlace, isNameIgnored: bool)
    requires Valid(t) && MoveChecks(t.rows, item, place)
    ensures item in t.rows && t.rows[item].localPlace.Some?
    ensures MoveItem(t, item, place, isNameIgnored) == Ok(Put(t, item, AtPlace(t.rows[item], place, isNameIgnored)))
  {
    hide RowOk, RowsUnique, IsTree, StampsOk, CheckCanHold, Follows, Put, SchemaAllows;
    CanHoldIsChecked(t.rows, place.parent, item);
    ShownIsInTree(t.rows, place.parent);
    MoveKeepsTree(ParentsOf(t.rows), item, place.parent);
    PlaceKeepsCore(t, item, place, isNameIgnored);
  }

  lemma RefusedRemoval(t: Table, item: ItemId)
    requires FindPlaced(t.rows, item).Err? || !HoldsNothing(t.rows, item)
    ensures Remove(t, item).Err?
  {
    hide FindPlaced, HoldsNothing, RemoveLocalVersion;
  }

  lemma RemovalUnfolds(t: Table, item: ItemId)
    requires FindPlaced(t.rows, item).Ok? && HoldsNothing(t.rows, item) && item in t.rows
    ensures Remove(t, item) == RemoveLocalVersion(t, item)
  {
    hide FindPlaced, HoldsNothing, RemoveLocalVersion;
  }

  lemma RemovedIs(t: Table, item: ItemId)
    requires Valid(t)
    ensures Does(t, Remove(t, item), Changed(FolderOf(t.rows), Removed(item), item), BoundOf(t.rows))
  {
    hide Valid, FindPlaced, HoldsNothing, IsEmptyIn, FolderOf, BoundOf, RemoveLocalVersion, WithoutLocal, Remove, Follows;
    PlacedIs(t, item);
    EmptyIs(t.rows, item);
    if FindPlaced(t.rows, item).Ok? && HoldsNothing(t.rows, item) {
      RemovalUnfolds(t, item);
      RemoveLocalVersionKeeps(t, item);
      WithoutLocalView(t, item);
    } else {
      RefusedRemoval(t, item);
    }
  }

  lemma ReplacedView(t: Table, replacing: ItemId, replaced: ItemId)
    requires CanSaveOver(t, replacing, replaced)
    ensures replacing in t.rows && replaced in t.rows
    ensures TakesOver(t.rows, replacing, replaced) ==> replaced in BoundOf(t.rows)
    ensures var u := Replaced(t, replacing, replaced);
            && replacing in u.rows && u.rows[replacing].localPlace.Some?
            && FolderOf(u.rows) == FolderOf(t.rows) - {replaced}
            && BoundOf(u.rows) == if TakesOver(t.rows, replacing, replaced) then Rebound(BoundOf(t.rows), replacing, replaced) else BoundOf(t.rows)
  {
    hide FolderOf, BoundOf, CheckCanHold, HoldsNothing, Put, SideOf;
    WithoutLocalView(t, replaced);
    if TakesOver(t.rows, replacing, replaced) {
      ReplacingCanTakeOver(t, replacing, replaced);
      TakenOverView(WithoutLocal(t, replaced), replacing, replaced);
    }
    ReplacingStays(t, replacing, replaced);
  }

  lemma ReplacingStays(t: Table, replacing: ItemId, replaced: ItemId)
    requires replacing in t.rows && replaced in t.rows && replacing != replaced && t.rows[replacing].localPlace.Some?
    ensures replacing in Replaced(t, replacing, replaced).rows && Replaced(t, replacing, replaced).rows[replacing].localPlace.Some?
  {
  }

  lemma SaveChecksAre(t: Table, replacing: ItemId, saved: ItemId)
    requires Valid(t)
    ensures CanSaveOver(t, replacing, saved) <==> Changed(FolderOf(t.rows), SavedOver(replacing, saved), replacing).Some?
  {
    hide Valid, IsTree, CheckCanHold, FindPlaced, HoldsNothing, IsEmptyIn, FolderOf, TreeOf, IsDirectory;
    PlacedIs(t, replacing);
    PlacedIs(t, saved);
    SavedInDirectory(t, saved);
    EmptyIs(t.rows, saved);
    if replacing in FolderOf(t.rows) && saved in FolderOf(t.rows) {
      HoldIffTree(t, replacing, FolderOf(t.rows)[saved].place.parent);
    }
  }

  /** The folder and the bindings once a file was saved over another. */
  lemma SavedView(t: Table, replacing: ItemId, saved: ItemId)
    requires Valid(t) && CanSaveOver(t, replacing, saved)
    ensures SaveOver(t, replacing, saved).Ok? && replacing in FolderOf(t.rows) && saved in FolderOf(t.rows)
    ensures TakesOver(t.rows, replacing, saved) ==> saved in BoundOf(t.rows)
    ensures var f, rows := FolderOf(t.rows), SaveOver(t, replacing, saved).value.rows;
            && FolderOf(rows) == (f - {saved})[replacing := f[replacing].(place := f[saved].place, isNameIgnored := f[saved].isNameIgnored)]
            && BoundOf(rows) == if TakesOver(t.rows, replacing, saved) then Rebound(BoundOf(t.rows), replacing, saved) else BoundOf(t.rows)
  {
    hide Valid, CheckCanHold, HoldsNothing, FolderOf, BoundOf, SaveOver, Replaced, Put, Keeps, Rebound;
    PlacedIs(t, replacing);
    PlacedIs(t, saved);
    SaveOverIsPut(t, replacing, saved);
    ReplacedView(t, replacing, saved);
    PlacedView(Replaced(t, replacing, saved), replacing, t.rows[saved].localPlace.value, t.rows[saved].isNameIgnored);
  }

  lemma SavedOverIs(t: Table, replacing: ItemId, saved: ItemId)
    requires Valid(t)
    ensures Does(t, SaveOver(t, replacing, saved), Changed(FolderOf(t.rows), SavedOver(replacing, saved), replacing),
                 Rebinding(FolderOf(t.rows), BoundOf(t.rows), SavedOver(replacing, saved), replacing))
  {
    hide Valid, CanSaveOver, SaveOver, FolderOf, BoundOf, TakesOver, Rebound, TreeOf, IsEmptyIn, IsTree;
    SaveChecksAre(t, replacing, saved);
    if CanSaveOver(t, replacing, saved) {
      SavedView(t, replacing, saved);
      TakesOverIff(t, replacing, saved);
    } else {
      RefusedSaveOver(t, replacing, saved);
    }
  }

  lemma SavedInDirectory(t: Table, id: ItemId)
    requires Valid(t)
    ensures id in FolderOf(t.rows) ==> IsDirectory(FolderOf(t.rows), FolderOf(t.rows)[id].place.parent)
  {
    if id in FolderOf(t.rows) {
      assert RowOk(t.rows, id, t.rows[id]);
    }
  }

  // ---------------------------------------------------------------- made, its content changed, exchanged

  predicate MakeChecks(rows: Rows, kind: ItemKind, place: ItemPlace, content: Option<ContentVersion>) {
    && (kind.File? == content.Some?) && CheckDirectory(rows, place.parent).Pass? && ListDirectoriesUp(rows, place.parent).Ok?
    && CheckDepth(ListDirectoriesUp(rows, place.parent).value, 0).Pass? && IsFree(rows, place) && IsEntryName(place.name)
  }

  lemma MakeChecksAre(t: Table, kind: ItemKind, place: ItemPlace, content: Option<ContentVersion>)
    requires Valid(t)
    ensures MakeChecks(t.rows, kind, place, content) <==>
            (kind.File? <==> content.Some?) && MayBeAt(FolderOf(t.rows), ItemId(t.lastId + 1), place)
  {
    hide Valid, IsTree, CheckDirectory, IsFree, IsFreeIn, FolderOf, TreeOf;
    var f := FolderOf(t.rows);
    DirectoryIs(t, place.parent);
    FreeIs(t.rows, place);
    if IsDirectory(f, place.parent) {
      FitsIff(t, place.parent);
    }
  }

  lemma FitsIff(t: Table, directory: ItemId)
    requires Valid(t) && IsDirectory(FolderOf(t.rows), directory)
    ensures ListDirectoriesUp(t.rows, directory).Ok?
    ensures CheckDepth(ListDirectoriesUp(t.rows, directory).value, 0).Pass? <==> IsTree(TreeOf(FolderOf(t.rows))[ItemId(t.lastId + 1) := directory])
  {
    hide IsTree, RowsOk, RowsUnique, StampsOk, Core, FolderOf, TreeOf;
    ValidIsCore(t);
    NewIsNoParent(t);
    TreeIsParents(t.rows);
    DirectoryIsInTree(t.rows, directory);
    TreeOfValid(t);
    AddIffTree(ParentsOf(t.rows), ItemId(t.lastId + 1), directory);
  }

  lemma TreeOfValid(t: Table)
    requires Valid(t)
    ensures IsTree(ParentsOf(t.rows))
  {
  }

  lemma DirectoryIsInTree(rows: Rows, id: ItemId)
    ensures IsDirectory(FolderOf(rows), id) ==> id in ParentsOf(rows) || id == ROOT
  {
  }

  lemma NewIsNoParent(t: Table)
    requires Core(t)
    ensures ItemId(t.lastId + 1) !in ParentsOf(t.rows) && ItemId(t.lastId + 1) != ROOT
    ensures forall id <- ParentsOf(t.rows) :: ParentsOf(t.rows)[id] != ItemId(t.lastId + 1)
  {
    NewIsNobodysParent(t, ItemId(t.lastId + 1));
    hide Core;
  }

  lemma RefusedMake(t: Table, kind: ItemKind, place: ItemPlace, content: Option<ContentVersion>, isNameIgnored: bool, replaced: Option<ItemId>)
    requires !MakeChecks(t.rows, kind, place, content) || CheckAnyReplaced(t.rows, kind, replaced).Fail?
    ensures Make(t, kind, place, content, isNameIgnored, replaced).Err?
  {
    hide CheckDirectory, ListDirectoriesUp, IsFree, CheckReplaced, CheckDepth, IsEntryName, SchemaAllows, TakeOverBinding;
  }

  /** The row that a make gives. */
  function MadeItem(kind: ItemKind, place: ItemPlace, content: Option<ContentVersion>, isNameIgnored: bool): Item {
    NewRow(kind, None, Some(place), content, if kind.File? then OnDisk else NotOnDisk, isNameIgnored)
  }

  lemma MakeUnfolds(t: Table, kind: ItemKind, place: ItemPlace, content: Option<ContentVersion>, isNameIgnored: bool, replaced: Option<ItemId>)
    requires Valid(t) && MakeChecks(t.rows, kind, place, content) && CheckAnyReplaced(t.rows, kind, replaced).Pass?
    ensures var made := WithMade(t, MadeItem(kind, place, content, isNameIgnored));
            && Valid(made)
            && (replaced.None? ==> Make(t, kind, place, content, isNameIgnored, replaced) == Ok(Inserted(made, ItemId(t.lastId + 1))))
            && (replaced.Some? ==>
                  && CanTakeOver(made.rows, ItemId(t.lastId + 1), replaced.value)
                  && Make(t, kind, place, content, isNameIgnored, replaced) == Ok(Inserted(TakenOver(made, ItemId(t.lastId + 1), replaced.value), ItemId(t.lastId + 1))))
  {
    hide Valid, CheckDirectory, ListDirectoriesUp, IsFree, CheckDepth, IsEntryName, InsertItem, TakeOverBinding, WithMade, TakenOver, Follows, Core, CanTakeOver;
    var item := MadeItem(kind, place, content, isNameIgnored);
    InsertKeeps(t, kind, place, content, item.contentPresence, isNameIgnored);
    if replaced.Some? {
      ValidIsCore(t);
      MadeCanTakeOver(t, item, replaced.value);
      TakeOverKeeps(WithMade(t, item), ItemId(t.lastId + 1), replaced.value);
    }
  }

  lemma ValidIsCore(t: Table)
    requires Valid(t)
    ensures Core(t)
  {
  }

  lemma MadeView(t: Table, item: Item)
    requires Core(t) && item.localPlace.Some? && item.binding.None?
    ensures FolderOf(WithMade(t, item).rows) == FolderOf(t.rows)[ItemId(t.lastId + 1) := EntryOf(item)]
    ensures BoundOf(WithMade(t, item).rows) == BoundOf(t.rows)
  {
    NewIsNobodysParent(t, ItemId(t.lastId + 1));
    PutView(t.(lastId := t.lastId + 1), ItemId(t.lastId + 1), item);
    hide Put, Core;
    assert ItemId(t.lastId + 1) !in BoundOf(t.rows);
  }

  /** A make is done to the folder, and takes its binding from the file it replaces, if any; it is refused also where that is no file to replace. */
  lemma MadeIs(t: Table, kind: ItemKind, place: ItemPlace, content: Option<ContentVersion>, isNameIgnored: bool, replaced: Option<ItemId>)
    requires Valid(t)
    ensures var id := ItemId(t.lastId + 1);
            match Make(t, kind, place, content, isNameIgnored, replaced)
            case Ok(made) =>
              && made.id == id && CheckAnyReplaced(t.rows, kind, replaced).Pass? && (replaced.Some? ==> replaced.value in BoundOf(t.rows))
              && Changed(FolderOf(t.rows), Made(kind, place, content, isNameIgnored, replaced), id) == Some(FolderOf(made.table.rows))
              && BoundOf(made.table.rows) == if replaced.Some? then Rebound(BoundOf(t.rows), id, replaced.value) else BoundOf(t.rows)
            case Err(_) =>
              CheckAnyReplaced(t.rows, kind, replaced).Fail? || Changed(FolderOf(t.rows), Made(kind, place, content, isNameIgnored, replaced), id).None?
  {
    hide Valid, Core, MakeChecks, MayBeAt, FolderOf, BoundOf, Make, CheckAnyReplaced, WithMade, TakenOver, CanTakeOver, Rebound;
    MakeChecksAre(t, kind, place, content);
    if MakeChecks(t.rows, kind, place, content) && CheckAnyReplaced(t.rows, kind, replaced).Pass? {
      var item := MadeItem(kind, place, content, isNameIgnored);
      MakeUnfolds(t, kind, place, content, isNameIgnored, replaced);
      ValidIsCore(t);
      MadeView(t, item);
      if replaced.Some? {
        TakenOverView(WithMade(t, item), ItemId(t.lastId + 1), replaced.value);
      }
    } else {
      RefusedMake(t, kind, place, content, isNameIgnored, replaced);
    }
  }

  lemma ContentView(t: Table, id: ItemId, content: ContentVersion, beforeWrite: Option<ContentVersion>)
    requires Valid(t)
    ensures Does(t, ChangeContent(t, id, content, beforeWrite),
                 if id == ROOT then None
                 else if id !in FolderOf(t.rows) then Some(FolderOf(t.rows))
                 else if FolderOf(t.rows)[id].content.None? then None
                 else Some(FolderOf(t.rows)[id := FolderOf(t.rows)[id].(content := Some(content), contentBeforeWrite := beforeWrite)]),
                 BoundOf(t.rows))
  {
    hide Valid, FolderOf, BoundOf, Put, SchemaAllows, ChangeContent, SideOf;
    PlacedIs(t, id);
    RootIsShown(t);
    ContentUnfolds(t, id, content, beforeWrite);
    if id in FolderOf(t.rows) && t.rows[id].localContent.Some? {
      var item := t.rows[id].(localContent := Some(content), contentBeforeWrite := beforeWrite);
      ContentWrites(t, id, content, beforeWrite);
      PutView(t, id, item);
      SameSide(t.rows, id, item);
    }
  }

  lemma ContentUnfolds(t: Table, id: ItemId, content: ContentVersion, beforeWrite: Option<ContentVersion>)
    ensures !Shown(t.rows, id) ==> ChangeContent(t, id, content, beforeWrite) == Ok(t)
    ensures Shown(t.rows, id) && (t.rows[id].kind.Directory? || t.rows[id].localContent.None?) ==> ChangeContent(t, id, content, beforeWrite).Err?
  {
    hide SetLocalContent;
  }

  /** Of a file that is shown, the content is written and nothing else. */
  lemma ContentWrites(t: Table, id: ItemId, content: ContentVersion, beforeWrite: Option<ContentVersion>)
    requires Valid(t) && id in t.rows && t.rows[id].localPlace.Some? && t.rows[id].localContent.Some?
    ensures t.rows[id].kind.File?
    ensures var item := t.rows[id].(localContent := Some(content), contentBeforeWrite := beforeWrite);
            ChangeContent(t, id, content, beforeWrite) == Ok(Put(t, id, item)) && item.binding == t.rows[id].binding
            && (item.binding.Some? ==> SideOf(item) == SideOf(t.rows[id]))
  {
    var item := t.rows[id].(localContent := Some(content), contentBeforeWrite := beforeWrite);
    assert RowOk(t.rows, id, t.rows[id]) && IsUnique(t.rows, id, t.rows[id]) && NameOk(t.rows[id]);
    ContentRow(t.rows, id, content, beforeWrite);
    WriteIsPut(t, id, item);
    hide Valid, WriteItem, Put, RowOk, IsUnique;
  }

  lemma SameSide(rows: Rows, id: ItemId, item: Item)
    requires id in rows && item.binding == rows[id].binding && (item.binding.Some? ==> SideOf(item) == SideOf(rows[id]))
    ensures BoundOf(rows) == if item.binding.Some? then BoundOf(rows)[id := SideOf(item)] else BoundOf(rows) - {id}
  {
  }

  lemma RootIsShown(t: Table)
    requires Valid(t)
    ensures ROOT in t.rows && t.rows[ROOT].kind.Directory? && Shown(t.rows, ROOT)
  {
    assert RowOk(t.rows, ROOT, t.rows[ROOT]);
  }

  lemma ContentIs(t: Table, change: LocalVersionChange, id: ItemId)
    requires Valid(t) && (change.OpenedForWriting? || change.ClosedChanged? || change.ClosedUnchanged? || change.Truncated?) && change.item == id
    ensures match ApplyChange(t, change)
            case Ok(done) => done.id == id && Changed(FolderOf(t.rows), change, id) == Some(FolderOf(done.table.rows)) && BoundOf(done.table.rows) == BoundOf(t.rows)
            case Err(_) => Changed(FolderOf(t.rows), change, id).None?
  {
    hide Valid, FolderOf, BoundOf, ChangeContent;
    PlacedIs(t, id);
    var content := ContentOf(t.rows, id);
    match change {
      case OpenedForWriting(_) =>
        ContentView(t, id, ChangedHere(content.size, content.mtime, content.mtimeNsec, content.ChangeCount() + 1), Some(BeforeWriteOr(t.rows, id, content)));
      case ClosedChanged(_, size, mtime, mtimeNsec) =>
        ContentView(t, id, ChangedHere(size, mtime, mtimeNsec, if content.ChangeCount() < 1 then 1 else content.ChangeCount()), None);
      case ClosedUnchanged(_) =>
        ContentView(t, id, BeforeWriteOr(t.rows, id, content), None);
      case Truncated(_, size, mtime, mtimeNsec) =>
        ContentView(t, id, ChangedHere(size, mtime, mtimeNsec, content.ChangeCount() + 1), None);
    }
  }

  // ---------------------------------------------------------------- the refinement

  lemma TakesOverIff(t: Table, replacing: ItemId, saved: ItemId)
    requires Valid(t) && replacing in FolderOf(t.rows) && saved in FolderOf(t.rows)
    ensures replacing in t.rows && saved in t.rows
    ensures TakesOver(t.rows, replacing, saved) <==>
            FolderOf(t.rows)[replacing].kind.File? && replacing !in BoundOf(t.rows) && saved in BoundOf(t.rows)
  {
  }

  /** A make's file to replace is checked by what the folder shows and what is bound. */
  lemma MayReplaceIff(t: Table, kind: ItemKind, place: ItemPlace, content: Option<ContentVersion>, isNameIgnored: bool, replaced: Option<ItemId>)
    requires Valid(t)
    ensures CheckAnyReplaced(t.rows, kind, replaced).Pass? <==> MayReplace(FolderOf(t.rows), BoundOf(t.rows), Made(kind, place, content, isNameIgnored, replaced))
  {
    assert RowOk(t.rows, ROOT, t.rows[ROOT]);
    if replaced.Some? && replaced.value in t.rows {
      assert RowOk(t.rows, replaced.value, t.rows[replaced.value]);
    }
  }

  /**
    For every table and every change: what the statements and triggers do to the rows is what
    the change does to a plain folder and to the bindings; and it is refused exactly where
    the plain folder does not allow it, or the file it is to replace is none.
  */
  lemma ChangeIsPlain(t: Table, change: LocalVersionChange)
    requires Valid(t)
    ensures match ApplyChange(t, change)
            case Ok(done) =>
              && MayReplace(FolderOf(t.rows), BoundOf(t.rows), change)
              && Changed(FolderOf(t.rows), change, ItemId(t.lastId + 1)) == Some(FolderOf(done.table.rows))
              && BoundOf(done.table.rows) == Rebinding(FolderOf(t.rows), BoundOf(t.rows), change, ItemId(t.lastId + 1))
              && done.id == (match change case Made(_, _, _, _, _) => ItemId(t.lastId + 1) case SavedOver(replacing, _) => replacing case _ => change.item)
            case Err(_) => !MayReplace(FolderOf(t.rows), BoundOf(t.rows), change) || Changed(FolderOf(t.rows), change, ItemId(t.lastId + 1)).None?
  {
    hide Valid, FolderOf, BoundOf, Make, MoveItem, SaveOver, Remove, ChangeContent, Rebound, MayBeAt, CheckAnyReplaced, IsTree, IsEmptyIn, TreeOf, IsFreeIn;
    match change
    case Made(kind, place, content, isNameIgnored, replaced) =>
      MayReplaceIff(t, kind, place, content, isNameIgnored, replaced);
      MadeIs(t, kind, place, content, isNameIgnored, replaced);
    case Moved(item, place, isNameIgnored) => MovedIs(t, item, place, isNameIgnored);
    case SavedOver(replacing, saved) => SavedOverIs(t, replacing, saved);
    case Removed(item) => RemovedIs(t, item);
    case _ => ContentIs(t, change, change.item);
  }

  lemma ExchangeChecksAre(t: Table, first: ItemId, second: ItemId)
    requires Valid(t)
    ensures CanExchange(t, first, second) <==> Exchanged(FolderOf(t.rows), first, second).Some?
  {
    hide Valid, IsTree, CheckCanHold, FindPlaced, FolderOf, TreeOf, IsDirectory;
    PlacedIs(t, first);
    PlacedIs(t, second);
    SavedInDirectory(t, first);
    SavedInDirectory(t, second);
    if first in FolderOf(t.rows) && second in FolderOf(t.rows) {
      HoldIffTree(t, first, FolderOf(t.rows)[second].place.parent);
      HoldIffTree(t, second, FolderOf(t.rows)[first].place.parent);
    }
  }

  lemma RefusedExchange(t: Table, first: ItemId, second: ItemId)
    requires !CanExchange(t, first, second)
    ensures ExchangeLocalPlaces(t, first, second).Err?
  {
    if ExchangeLocalPlaces(t, first, second).Ok? {
      OkIsExchange(t, first, second);
    }
  }

  lemma AsideView(t: Table, first: ItemId, second: ItemId)
    requires first != second && first in t.rows && second in t.rows && t.rows[first].localPlace.Some? && t.rows[second].localPlace.Some?
    ensures var v, f := Halfway(t, first, second), FolderOf(t.rows);
            && first in v.rows && v.rows[first].localPlace.Some? && first in f && second in f
            && BoundOf(v.rows) == BoundOf(t.rows)
            && FolderOf(v.rows) == f[first := f[first].(place := f[first].place.(name := ASIDE))]
                                    [second := f[second].(place := f[first].place, isNameIgnored := f[first].isNameIgnored)]
  {
    hide FolderOf, BoundOf, Put;
    EntryIs(t.rows);
    PlacedView(t, first, t.rows[first].localPlace.value.(name := ASIDE), t.rows[first].isNameIgnored);
    FlagIs(t.rows, first);
    AsideRows(t, first, second);
    PlacedView(Aside(t, first), second, t.rows[first].localPlace.value, t.rows[first].isNameIgnored);
  }

  lemma FlagIs(rows: Rows, id: ItemId)
    requires id in rows && rows[id].localPlace.Some?
    ensures id in FolderOf(rows) && FolderOf(rows)[id].isNameIgnored == rows[id].isNameIgnored
  {
  }

  lemma AsideRows(t: Table, first: ItemId, second: ItemId)
    requires first != second && first in t.rows && second in t.rows && t.rows[first].localPlace.Some? && t.rows[second].localPlace.Some?
    ensures second in Aside(t, first).rows && Aside(t, first).rows[second].localPlace.Some?
    ensures first in Halfway(t, first, second).rows && Halfway(t, first, second).rows[first].localPlace.Some?
  {
  }

  /** The same of an exchange of two places, through the name no file can have. */
  lemma ExchangeIsPlain(t: Table, first: ItemId, second: ItemId)
    requires Valid(t)
    ensures Does(t, ExchangeLocalPlaces(t, first, second), Exchanged(FolderOf(t.rows), first, second), BoundOf(t.rows))
  {
    hide Valid, FolderOf, BoundOf, Put, CanExchange, ExchangeLocalPlaces, Halfway, IsTree, TreeOf, Keeps;
    ExchangeChecksAre(t, first, second);
    if CanExchange(t, first, second) {
      PlacedIs(t, first);
      PlacedIs(t, second);
      ExchangeIsPut(t, first, second);
      AsideView(t, first, second);
      PlacedView(Halfway(t, first, second), first, t.rows[second].localPlace.value, t.rows[second].isNameIgnored);
      FlagIs(t.rows, second);
      SwapTwice(FolderOf(t.rows), first, second);
    } else {
      RefusedExchange(t, first, second);
    }
  }

  lemma SwapTwice(f: Folder, first: ItemId, second: ItemId)
    requires first != second && first in f && second in f
    ensures var aside := f[first := f[first].(place := f[first].place.(name := ASIDE))];
            var half := aside[second := f[second].(place := f[first].place, isNameIgnored := f[first].isNameIgnored)];
            half[first := half[first].(place := f[second].place, isNameIgnored := f[second].isNameIgnored)] ==
            f[first := f[first].(place := f[second].place, isNameIgnored := f[second].isNameIgnored)]
             [second := f[second].(place := f[first].place, isNameIgnored := f[first].isNameIgnored)]
  {
  }

  // ---------------------------------------------------------------- why a change is refused

  /** Nothing is at a place of its own that is not shown, and the root is at none. */
  function WhyNotPlaced(f: Folder, id: ItemId): Option<RefusalReason> {
    if id == ROOT then Some(AnotherRule) else if id !in f then Some(ItemGone) else None
  }

  function WhyNoDirectory(f: Folder, id: ItemId): Option<RefusalReason> {
    if id == ROOT then None else if id !in f then Some(NoDirectory) else if f[id].kind.Directory? then None else Some(AnotherRule)
  }

  function First(a: Option<RefusalReason>, b: RefusalReason): RefusalReason {
    if a.Some? then a.value else b
  }

  /** The reason for which a plain folder refuses a change that it refuses: the first of those that hold. */
  ghost function Why(f: Folder, change: LocalVersionChange, made: ItemId): RefusalReason {
    match change
    case Made(kind, place, content, _, _) =>
      if kind.File? != content.Some? then AnotherRule
      else if WhyNoDirectory(f, place.parent).Some? then WhyNoDirectory(f, place.parent).value
      else if IsTree(TreeOf(f)[made := place.parent]) && !IsFreeIn(f, place) then PlaceTaken
      else AnotherRule
    case Moved(item, place, _) =>
      if WhyNotPlaced(f, item).Some? then WhyNotPlaced(f, item).value
      else if WhyNoDirectory(f, place.parent).Some? then WhyNoDirectory(f, place.parent).value
      else if IsTree(TreeOf(f)[item := place.parent]) && !IsFreeIn(f, place) then PlaceTaken
      else AnotherRule
    case SavedOver(replacing, saved) =>
      if replacing == saved then AnotherRule
      else if WhyNotPlaced(f, replacing).Some? then WhyNotPlaced(f, replacing).value
      else if WhyNotPlaced(f, saved).Some? then WhyNotPlaced(f, saved).value
      else if f[replacing].kind == f[saved].kind && !IsEmptyIn(f, saved) then DirectoryNotEmpty
      else AnotherRule
    case Removed(item) => First(WhyNotPlaced(f, item), DirectoryNotEmpty)
    case _ => AnotherRule
  }

  /** Of two that exchange places. */
  function WhyNotExchanged(f: Folder, first: ItemId, second: ItemId): RefusalReason {
    if first == second then AnotherRule else First(WhyNotPlaced(f, first), First(WhyNotPlaced(f, second), AnotherRule))
  }

  lemma PlacedOr(t: Table, id: ItemId)
    requires Valid(t)
    ensures match FindPlaced(t.rows, id)
            case Ok(_) => WhyNotPlaced(FolderOf(t.rows), id).None?
            case Err(e) => WhyNotPlaced(FolderOf(t.rows), id).Some? && e == Refused(WhyNotPlaced(FolderOf(t.rows), id).value)
  {
    PlacedIs(t, id);
    RootIsShown(t);
    assert RowOk(t.rows, ROOT, t.rows[ROOT]);
  }

  lemma DirectoryOr(t: Table, id: ItemId)
    requires Valid(t)
    ensures match CheckDirectory(t.rows, id)
            case Pass => WhyNoDirectory(FolderOf(t.rows), id).None? && IsDirectory(FolderOf(t.rows), id)
            case Fail(e) => WhyNoDirectory(FolderOf(t.rows), id).Some? && e == Refused(WhyNoDirectory(FolderOf(t.rows), id).value)
  {
    RootIsShown(t);
    assert RowOk(t.rows, ROOT, t.rows[ROOT]);
  }

  lemma HoldOr(rows: Rows, directory: ItemId, item: ItemId)
    ensures CheckCanHold(rows, directory, item).Fail? ==> CheckCanHold(rows, directory, item).error == Refused(AnotherRule)
  {
  }

  lemma RefusedMoveSays(t: Table, item: ItemId, place: ItemPlace, isNameIgnored: bool)
    requires Valid(t)
    ensures match MoveItem(t, item, place, isNameIgnored)
            case Ok(_) => true
            case Err(e) => e == Refused(Why(FolderOf(t.rows), Moved(item, place, isNameIgnored), item))
  {
    hide Valid, IsTree, CheckCanHold, CheckDirectory, FindPlaced, IsFree, IsFreeIn, FolderOf, TreeOf, WhyNotPlaced, WhyNoDirectory, WriteLocalPlace, Put;
    if MoveChecks(t.rows, item, place) {
      MoveWrites(t, item, place, isNameIgnored);
    } else {
      PlacedOr(t, item);
      DirectoryOr(t, place.parent);
      PlacedIs(t, item);
      FreeIs(t.rows, place);
      HoldOr(t.rows, place.parent, item);
      if item in FolderOf(t.rows) && IsDirectory(FolderOf(t.rows), place.parent) {
        HoldIffTree(t, item, place.parent);
      }
    }
  }

  lemma RefusedMakeSays(t: Table, kind: ItemKind, place: ItemPlace, content: Option<ContentVersion>, isNameIgnored: bool, replaced: Option<ItemId>)
    requires Valid(t)
    ensures match Make(t, kind, place, content, isNameIgnored, replaced)
            case Ok(_) => true
            case Err(e) => e == Refused(Why(FolderOf(t.rows), Made(kind, place, content, isNameIgnored, replaced), ItemId(t.lastId + 1)))
  {
    hide Valid, IsTree, CheckDirectory, ListDirectoriesUp, IsFree, IsFreeIn, FolderOf, TreeOf, WhyNoDirectory, InsertItem, IsEntryName, CheckReplaced, TakeOverBinding,
         WithMade, TakenOver, CanTakeOver;
    if MakeChecks(t.rows, kind, place, content) && CheckAnyReplaced(t.rows, kind, replaced).Pass? {
      MakeUnfolds(t, kind, place, content, isNameIgnored, replaced);
    } else {
      DirectoryOr(t, place.parent);
      FreeIs(t.rows, place);
      if IsDirectory(FolderOf(t.rows), place.parent) {
        FitsIff(t, place.parent);
      }
      NameIsRefused(t, kind, place, content, isNameIgnored);
      ReplacedOr(t.rows, kind, replaced);
    }
  }

  lemma ReplacedOr(rows: Rows, kind: ItemKind, replaced: Option<ItemId>)
    ensures CheckAnyReplaced(rows, kind, replaced).Fail? ==> CheckAnyReplaced(rows, kind, replaced).error == Refused(AnotherRule)
  {
  }

  lemma NameIsRefused(t: Table, kind: ItemKind, place: ItemPlace, content: Option<ContentVersion>, isNameIgnored: bool)
    ensures !IsEntryName(place.name) ==>
              InsertItem(t, kind, None, Some(place), content, if kind.File? then OnDisk else NotOnDisk, isNameIgnored) == Err(Refused(AnotherRule))
  {
    hide SchemaAllows;
  }

  /** The first of its checks that a save fails. */
  lemma RefusedSaveUnfolds(t: Table, replacing: ItemId, saved: ItemId)
    requires !CanSaveOver(t, replacing, saved)
    ensures SaveOver(t, replacing, saved) ==
            if replacing == saved then Err(Refused(AnotherRule))
            else if FindPlaced(t.rows, replacing).Err? then Err(FindPlaced(t.rows, replacing).error)
            else if FindPlaced(t.rows, saved).Err? then Err(FindPlaced(t.rows, saved).error)
            else if t.rows[replacing].kind != t.rows[saved].kind then Err(Refused(AnotherRule))
            else if !HoldsNothing(t.rows, saved) then Err(Refused(DirectoryNotEmpty))
            else Err(CheckCanHold(t.rows, t.rows[saved].localPlace.value.parent, replacing).error)
  {
    hide CheckCanHold, HoldsNothing, RemoveLocalVersion, TakeOverOfSave, SetLocalPlace;
  }

  lemma RefusedSaveSays(t: Table, replacing: ItemId, saved: ItemId)
    requires Valid(t)
    ensures match SaveOver(t, replacing, saved)
            case Ok(_) => true
            case Err(e) => e == Refused(Why(FolderOf(t.rows), SavedOver(replacing, saved), replacing))
  {
    hide Valid, SaveOver, IsTree, CheckCanHold, FindPlaced, HoldsNothing, IsEmptyIn, FolderOf, TreeOf, WhyNotPlaced, BoundOf, TakesOver;
    if CanSaveOver(t, replacing, saved) {
      SavedView(t, replacing, saved);
    } else {
      RefusedSaveUnfolds(t, replacing, saved);
      PlacedOr(t, replacing);
      PlacedOr(t, saved);
      PlacedIs(t, replacing);
      PlacedIs(t, saved);
      EmptyIs(t.rows, saved);
      if FindPlaced(t.rows, saved).Ok? {
        HoldOr(t.rows, t.rows[saved].localPlace.value.parent, replacing);
      }
    }
  }

  lemma RefusedRemovalSays(t: Table, item: ItemId)
    requires Valid(t)
    ensures match Remove(t, item)
            case Ok(_) => true
            case Err(e) => e == Refused(Why(FolderOf(t.rows), Removed(item), item))
  {
    hide Valid, FindPlaced, HoldsNothing, FolderOf, RemoveLocalVersion, WithoutLocal, WhyNotPlaced, Follows;
    PlacedOr(t, item);
    PlacedIs(t, item);
    if FindPlaced(t.rows, item).Ok? && HoldsNothing(t.rows, item) {
      RemovalUnfolds(t, item);
      RemoveLocalVersionKeeps(t, item);
    }
  }

  lemma RefusedContentSays(t: Table, id: ItemId, content: ContentVersion, beforeWrite: Option<ContentVersion>)
    requires Valid(t)
    ensures ChangeContent(t, id, content, beforeWrite).Err? ==> ChangeContent(t, id, content, beforeWrite).error == Refused(AnotherRule)
  {
    ContentUnfolds(t, id, content, beforeWrite);
    if Shown(t.rows, id) && t.rows[id].kind.File? && t.rows[id].localContent.Some? {
      assert RowOk(t.rows, id, t.rows[id]);
      ContentWrites(t, id, content, beforeWrite);
    }
    hide Valid, SetLocalContent;
  }

  /** A change that is refused is refused for the reason the plain folder has. */
  lemma RefusalSaysWhy(t: Table, change: LocalVersionChange)
    requires Valid(t) && ApplyChange(t, change).Err?
    ensures ApplyChange(t, change).error == Refused(Why(FolderOf(t.rows), change, ItemId(t.lastId + 1)))
  {
    hide Valid, FolderOf, Make, MoveItem, SaveOver, Remove, ChangeContent, IsTree, IsFreeIn, IsEmptyIn, TreeOf, WhyNotPlaced, WhyNoDirectory;
    match change
    case Made(kind, place, content, isNameIgnored, replaced) => RefusedMakeSays(t, kind, place, content, isNameIgnored, replaced);
    case Moved(item, place, isNameIgnored) => RefusedMoveSays(t, item, place, isNameIgnored);
    case SavedOver(replacing, saved) => RefusedSaveSays(t, replacing, saved);
    case Removed(item) => RefusedRemovalSays(t, item);
    case _ => RefusedWriteSays(t, change, change.item);
  }

  lemma RefusedWriteSays(t: Table, change: LocalVersionChange, id: ItemId)
    requires Valid(t) && (change.OpenedForWriting? || change.ClosedChanged? || change.ClosedUnchanged? || change.Truncated?) && change.item == id
    ensures ApplyChange(t, change).Err? ==> ApplyChange(t, change).error == Refused(AnotherRule)
  {
    hide Valid, ChangeContent;
    forall content, beforeWrite
      ensures ChangeContent(t, id, content, beforeWrite).Err? ==> ChangeContent(t, id, content, beforeWrite).error == Refused(AnotherRule)
    {
      RefusedContentSays(t, id, content, beforeWrite);
    }
  }

  lemma RefusedExchangeSaysWhy(t: Table, first: ItemId, second: ItemId)
    requires Valid(t) && ExchangeLocalPlaces(t, first, second).Err?
    ensures ExchangeLocalPlaces(t, first, second).error == Refused(WhyNotExchanged(FolderOf(t.rows), first, second))
  {
    hide Valid, CheckCanHold, FindPlaced, FolderOf, WhyNotPlaced, SetLocalPlaceAside, SetLocalPlace, Keeps, Put, Halfway;
    if CanExchange(t, first, second) {
      ExchangeIsPut(t, first, second);
    }
    PlacedOr(t, first);
    PlacedOr(t, second);
    PlacedIs(t, first);
    PlacedIs(t, second);
    if FindPlaced(t.rows, first).Ok? && FindPlaced(t.rows, second).Ok? {
      HoldOr(t.rows, t.rows[second].localPlace.value.parent, first);
      HoldOr(t.rows, t.rows[first].localPlace.value.parent, second);
    }
  }
}
