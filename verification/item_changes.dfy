/**
  The operations that change what the folder shows: made, moved, saved over, removed,
  opened and closed for writing, truncated, and two names exchanged. Each gives the table
  it leaves, or the error of a change that leaves the table as it was.
*/
module ItemChanges {
  import opened Wrappers
  import opened ItemTree
  import opened ItemTable

  datatype LocalVersionChange =
    | Made(kind: ItemKind, place: ItemPlace, content: Option<ContentVersion>, isNameIgnored: bool, replaced: Option<ItemId>)
    | Moved(item: ItemId, newPlace: ItemPlace, isNewNameIgnored: bool)
    | SavedOver(replacing: ItemId, saved: ItemId)
    | Removed(item: ItemId)
    | OpenedForWriting(item: ItemId)
    | ClosedChanged(item: ItemId, size: nat, mtime: int, mtimeNsec: nat)
    | ClosedUnchanged(item: ItemId)
    | Truncated(item: ItemId, size: nat, mtime: int, mtimeNsec: nat)

  function Refuse(reason: RefusalReason): Outcome<Error> {
    Fail(Refused(reason))
  }

  function Need(condition: bool, reason: RefusalReason): Outcome<Error> {
    if condition then Pass else Refuse(reason)
  }

  // ---------------------------------------------------------------- what is asked before a write

  function FindPlaced(rows: Rows, id: ItemId): Result<ItemPlace, Error> {
    if !Shown(rows, id) then Err(Refused(ItemGone))
    else if rows[id].localPlace.None? then Err(Refused(AnotherRule))
    else Ok(rows[id].localPlace.value)
  }

  /** Whether an item may be put into this directory: it is shown, and it is one. */
  function CheckDirectory(rows: Rows, id: ItemId): Outcome<Error> {
    if !Shown(rows, id) then Refuse(NoDirectory)
    else if rows[id].kind.Directory? then Pass
    else Refuse(AnotherRule)
  }

  predicate HoldsNothing(rows: Rows, id: ItemId) {
    forall c <- rows :: rows[c].localPlace.Some? ==> rows[c].localPlace.value.parent != id
  }

  function CheckEmpty(rows: Rows, id: ItemId): Outcome<Error> {
    if HoldsNothing(rows, id) then Pass else Refuse(DirectoryNotEmpty)
  }

  function ListDirectoriesUp(rows: Rows, directory: ItemId): Result<seq<ItemId>, Error> {
    match Up(ParentsOf(rows), directory, MAX_CHAIN + 1)
    case Some(directories) => Ok(directories)
    case None => Err(Refused(AnotherRule))
  }

  function CheckDepth(directories: seq<ItemId>, levelsBelow: nat): Outcome<Error> {
    if |directories| + levelsBelow > MAX_CHAIN then Refuse(AnotherRule) else Pass
  }

  function CheckCanHold(rows: Rows, directory: ItemId, item: ItemId): Outcome<Error> {
    match ListDirectoriesUp(rows, directory)
    case Err(e) => Fail(e)
    case Ok(directories) =>
      if item in directories then Refuse(AnotherRule)
      else CheckDepth(directories, LevelsBelow(ParentsOf(rows), {item}, MAX_CHAIN + 1))
  }

  predicate IsFree(rows: Rows, place: ItemPlace) {
    forall c <- rows :: rows[c].localPlace != Some(place)
  }

  function CheckPlaceIsFree(rows: Rows, place: ItemPlace): Outcome<Error> {
    if IsFree(rows, place) then Pass else Refuse(PlaceTaken)
  }

  /** A file a program makes can replace one removed here of which OneDrive was not told yet. */
  function CheckReplaced(rows: Rows, kind: ItemKind, replaced: ItemId): Outcome<Error> {
    if kind.Directory? || replaced == ROOT || replaced !in rows || Shown(rows, replaced)
       || rows[replaced].binding.None? || rows[replaced].kind.Directory? || rows[replaced].syncedPlace.None?
    then Refuse(AnotherRule) else Pass
  }

  function CheckAnyReplaced(rows: Rows, kind: ItemKind, replaced: Option<ItemId>): Outcome<Error> {
    if replaced.Some? then CheckReplaced(rows, kind, replaced.value) else Pass
  }

  // ---------------------------------------------------------------- the parts of a change

  /** An item ceases to be shown; with no binding its row is deleted. */
  function RemoveLocalVersion(t: Table, id: ItemId): Result<Table, Error>
    requires id in t.rows
  {
    var item := t.rows[id];
    if item.binding.None? then
      if exists c <- t.rows :: t.rows[c].syncedPlace.Some? && t.rows[c].syncedPlace.value.parent == id then Err(Refused(AnotherRule))
      else DeleteItem(t, id)
    else
      WriteItem(t, id, Hidden(item))
  }

  function Hidden(item: Item): Item {
    item.(localPlace := None, localContent := None, contentPresence := NotOnDisk, contentBeforeWrite := None)
  }

  /** `taker` with the binding of `giver`, all that is OneDrive's of it, and what was agreed on. */
  function WithSideOf(taker: Item, giver: Item): Item {
    taker.(binding := giver.binding, onedrivePlace := giver.onedrivePlace, onedriveContent := giver.onedriveContent,
           onedriveEtag := giver.onedriveEtag, onedriveMime := giver.onedriveMime, placement := giver.placement,
           confirmedAtCount := giver.confirmedAtCount, syncedPlace := giver.syncedPlace, syncedContent := giver.syncedContent)
  }

  /**
    One file takes the binding of another, which the folder does not show, and whose row
    goes. Rows that name the giving row as their directory would be moved to the taking
    one, which is a file: the schema refuses each of them.
  */
  function TakeOverBinding(t: Table, replacing: ItemId, replaced: ItemId): Result<Table, Error> {
    if replacing == replaced || replacing == ROOT || replaced == ROOT || replacing !in t.rows || replaced !in t.rows then Err(Refused(AnotherRule))
    else
      var taker, giver := t.rows[replacing], t.rows[replaced];
      if taker.binding.Some? || taker.localPlace.None? || giver.binding.None? || giver.localPlace.Some? || giver.kind.Directory? || taker.kind.Directory?
      then Err(Refused(AnotherRule))
      else if !HoldsNothing(t.rows, replaced) then Err(Refused(DirectoryNotEmpty))
      else if exists c <- t.rows :: NamesAsParent(t.rows[c], replaced) then Err(SchemaRule)
      else
        var deleted :- DeleteItem(t, replaced);
        var written :- WriteItem(deleted, replacing, WithSideOf(taker, giver));
        Ok(written.(rows := written.rows[replacing := written.rows[replacing].(seenInFullListing := giver.seenInFullListing)]))
  }

  // ---------------------------------------------------------------- the changes

  function Make(t: Table, kind: ItemKind, place: ItemPlace, content: Option<ContentVersion>, isNameIgnored: bool, replaced: Option<ItemId>): Result<Inserted, Error> {
    var presence := if kind.File? then OnDisk else NotOnDisk;
    :- Need(kind.File? == content.Some?, AnotherRule);
    :- CheckDirectory(t.rows, place.parent);
    var directories :- ListDirectoriesUp(t.rows, place.parent);
    :- CheckDepth(directories, 0);
    :- CheckPlaceIsFree(t.rows, place);
    :- CheckAnyReplaced(t.rows, kind, replaced);
    var made :- InsertItem(t, kind, None, Some(place), content, presence, isNameIgnored);
    if replaced.None? then Ok(made)
    else
      var taken :- TakeOverBinding(made.table, made.id, replaced.value);
      Ok(Inserted(taken, made.id))
  }

  function MoveItem(t: Table, item: ItemId, place: ItemPlace, isNameIgnored: bool): Result<Table, Error> {
    var _ :- FindPlaced(t.rows, item);
    :- CheckDirectory(t.rows, place.parent);
    :- CheckCanHold(t.rows, place.parent, item);
    :- CheckPlaceIsFree(t.rows, place);
    SetLocalPlace(t, item, place, isNameIgnored)
  }

  function SaveOver(t: Table, replacing: ItemId, replaced: ItemId): Result<Table, Error> {
    var areTwo := replacing != replaced;
    :- Need(areTwo, AnotherRule);
    var _ :- FindPlaced(t.rows, replacing);
    var place :- FindPlaced(t.rows, replaced);
    :- Need(t.rows[replacing].kind == t.rows[replaced].kind, AnotherRule);
    :- CheckEmpty(t.rows, replaced);
    :- CheckCanHold(t.rows, place.parent, replacing);
    var removed :- RemoveLocalVersion(t, replaced);
    var taken :- TakeOverOfSave(t, removed, replacing, replaced);
    SetLocalPlace(taken, replacing, place, t.rows[replaced].isNameIgnored)
  }

  function TakeOverOfSave(t: Table, removed: Table, replacing: ItemId, replaced: ItemId): Result<Table, Error>
    requires replacing in t.rows && replaced in t.rows
  {
    if TakesOver(t.rows, replacing, replaced) then TakeOverBinding(removed, replacing, replaced) else Ok(removed)
  }

  /** Whether the replaced file's binding goes to the replacing one: only one of the two has any. */
  predicate TakesOver(rows: Rows, replacing: ItemId, replaced: ItemId)
    requires replacing in rows && replaced in rows
  {
    rows[replacing].kind.File? && rows[replacing].binding.None? && rows[replaced].binding.Some?
  }

  function Remove(t: Table, id: ItemId): Result<Table, Error> {
    var _ :- FindPlaced(t.rows, id);
    :- CheckEmpty(t.rows, id);
    RemoveLocalVersion(t, id)
  }

  function SetLocalContent(t: Table, id: ItemId, content: ContentVersion, beforeWrite: Option<ContentVersion>): Result<Table, Error>
    requires id in t.rows
  {
    WriteItem(t, id, t.rows[id].(localContent := Some(content), contentBeforeWrite := beforeWrite))
  }

  /** Two items exchange places in three writes; between them the first has a name aside. */
  function ExchangeLocalPlaces(t: Table, first: ItemId, second: ItemId): Result<Table, Error> {
    var areTwo := first != second;
    :- Need(areTwo, AnotherRule);
    var firstPlace :- FindPlaced(t.rows, first);
    var secondPlace :- FindPlaced(t.rows, second);
    :- CheckCanHold(t.rows, secondPlace.parent, first);
    :- CheckCanHold(t.rows, firstPlace.parent, second);
    var aside :- SetLocalPlaceAside(t, first, firstPlace, t.rows[first].isNameIgnored);
    var placed :- SetLocalPlace(aside, second, firstPlace, t.rows[first].isNameIgnored);
    SetLocalPlace(placed, first, secondPlace, t.rows[second].isNameIgnored)
  }

  /** New content for an item: one not shown is left alone, and a directory is an error. */
  function ChangeContent(t: Table, id: ItemId, content: ContentVersion, beforeWrite: Option<ContentVersion>): Result<Table, Error> {
    if !Shown(t.rows, id) then Ok(t)
    else if t.rows[id].kind.Directory? || t.rows[id].localContent.None? then Err(Refused(AnotherRule))
    else SetLocalContent(t, id, content, beforeWrite)
  }

  /** The content a row has, where it has one. */
  function ContentOf(rows: Rows, id: ItemId): ContentVersion {
    if id in rows && rows[id].localContent.Some? then rows[id].localContent.value else ChangedHere(0, 0, 0, 0)
  }

  function BeforeWriteOr(rows: Rows, id: ItemId, content: ContentVersion): ContentVersion {
    if id in rows && rows[id].contentBeforeWrite.Some? then rows[id].contentBeforeWrite.value else content
  }

  function ApplyChange(t: Table, change: LocalVersionChange): Result<Inserted, Error> {
    match change
    case Made(kind, place, content, isNameIgnored, replaced) => Make(t, kind, place, content, isNameIgnored, replaced)
    case Moved(item, place, isNameIgnored) => About(MoveItem(t, item, place, isNameIgnored), item)
    case SavedOver(replacing, saved) => About(SaveOver(t, replacing, saved), replacing)
    case Removed(item) => About(Remove(t, item), item)
    case OpenedForWriting(item) =>
      var content := ContentOf(t.rows, item);
      var changed := ChangedHere(content.size, content.mtime, content.mtimeNsec, content.ChangeCount() + 1);
      About(ChangeContent(t, item, changed, Some(BeforeWriteOr(t.rows, item, content))), item)
    case ClosedChanged(item, size, mtime, mtimeNsec) =>
      var count := ContentOf(t.rows, item).ChangeCount();
      About(ChangeContent(t, item, ChangedHere(size, mtime, mtimeNsec, if count < 1 then 1 else count), None), item)
    case ClosedUnchanged(item) =>
      About(ChangeContent(t, item, BeforeWriteOr(t.rows, item, ContentOf(t.rows, item)), None), item)
    case Truncated(item, size, mtime, mtimeNsec) =>
      About(ChangeContent(t, item, ChangedHere(size, mtime, mtimeNsec, ContentOf(t.rows, item).ChangeCount() + 1), None), item)
  }

  function About(done: Result<Table, Error>, item: ItemId): Result<Inserted, Error> {
    var table :- done;
    Ok(Inserted(table, item))
  }

  // ---------------------------------------------------------------- whole runs

  datatype Operation =
    | Apply(changes: seq<LocalVersionChange>)
    | Exchange(first: ItemId, second: ItemId)

  /** Several changes in one transaction: all of them or none. */
  function ApplyAll(t: Table, changes: seq<LocalVersionChange>): Result<Table, Error>
    decreases |changes|
  {
    if changes == [] then Ok(t)
    else
      var done :- ApplyChange(t, changes[0]);
      ApplyAll(done.table, changes[1..])
  }

  function Attempt(t: Table, operation: Operation): Result<Table, Error> {
    match operation
    case Apply(changes) => ApplyAll(t, changes)
    case Exchange(first, second) => ExchangeLocalPlaces(t, first, second)
  }

  /** One operation, a transaction of its own: what is refused leaves the table as it was. */
  function Step(t: Table, operation: Operation): Table {
    match Attempt(t, operation)
    case Ok(next) => next
    case Err(_) => t
  }

  function Run(t: Table, operations: seq<Operation>): Table
    decreases |operations|
  {
    if operations == [] then t else Run(Step(t, operations[0]), operations[1..])
  }

  /** A new store: the root's row and nothing else. */
  const NEW_STORE: Table := Table(map[ROOT := NewRow(Directory, None, None, None, NotOnDisk, false)], 1, 0)
}
