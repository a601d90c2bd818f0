/**
  The table of items: a row, the rules the schema holds of the rows, the triggers that
  keep the stamp of what is unsent, and the statements every operation is made of.
*/
module ItemTable {
  import opened Wrappers
  import opened ItemTree

  datatype ItemKind = File | Directory

  type Name = string

  /** What can be the name of a place, here or as agreed. */
  predicate IsEntryName(name: Name) {
    name != "" && name != "." && name != ".." && '/' !in name && '\0' !in name
  }

  datatype ItemPlace = ItemPlace(parent: ItemId, name: Name)

  datatype ContentVersion =
    | Hashed(size: nat, mtime: int, mtimeNsec: nat, hash: Option<string>, ctag: Option<string>)
    | ChangedHere(size: nat, mtime: int, mtimeNsec: nat, changeCount: nat)
  {
    function ChangeCount(): nat {
      if ChangedHere? then changeCount else 0
    }
  }

  datatype Reference = Reference(driveId: string, itemId: string)

  datatype ContentPresence = OnDisk | NotOnDisk

  datatype Placement = Placed | Skipped(reason: string)

  /** The columns of a row. A place here is what makes an item shown; the root needs none. */
  datatype Item = Item(
    binding: Option<Reference>,
    kind: ItemKind,
    localPlace: Option<ItemPlace>,
    localContent: Option<ContentVersion>,
    onedrivePlace: Option<ItemPlace>,
    onedriveContent: Option<ContentVersion>,
    onedriveEtag: Option<string>,
    onedriveMime: Option<string>,
    syncedPlace: Option<ItemPlace>,
    syncedContent: Option<ContentVersion>,
    contentPresence: ContentPresence,
    contentBeforeWrite: Option<ContentVersion>,
    placement: Placement,
    isNameIgnored: bool,
    confirmedAtCount: nat,
    seenInFullListing: nat,
    isExecutable: bool,
    unsentSince: Option<nat>)

  type Rows = map<ItemId, Item>

  /** `lastId`: the last id given, never given again. `lastUnsentSince`: the one counter of stamps. */
  datatype Table = Table(rows: Rows, lastId: int, lastUnsentSince: nat)

  datatype RefusalReason = ItemGone | PlaceTaken | DirectoryNotEmpty | NoDirectory | AnotherRule

  /** A change the code refuses, or a statement that trips a rule of the schema. */
  datatype Error = Refused(reason: RefusalReason) | SchemaRule

  predicate Shown(rows: Rows, id: ItemId) {
    id in rows && (rows[id].localPlace.Some? || id == ROOT)
  }

  /** Here the item is not as it was agreed. */
  predicate Unsent(item: Item) {
    item.localPlace != item.syncedPlace || item.localContent != item.syncedContent
  }

  predicate IsDirectoryRow(rows: Rows, id: ItemId) {
    id in rows && rows[id].kind.Directory?
  }

  function ParentsOf(rows: Rows): Parents {
    map id | id in rows && rows[id].localPlace.Some? :: rows[id].localPlace.value.parent
  }

  // ---------------------------------------------------------------- the schema

  /** The checks of the schema that need no other row. */
  predicate RowChecks(id: ItemId, item: Item) {
    && (item.binding.Some? ==> item.binding.value.driveId != "" && item.binding.value.itemId != "")
    && (item.binding.None? ==> item.syncedPlace.None? && item.syncedContent.None?)
    && (item.binding.None? ==> item.onedrivePlace.None? && item.onedriveContent.None? && item.onedriveEtag.None? && item.onedriveMime.None?)
    && (item.onedriveMime.Some? ==> item.onedriveContent.Some?)
    && (id == ROOT ==> item.kind.Directory? && item.localPlace.None? && item.onedrivePlace.None? && item.syncedPlace.None?)
    && (item.localPlace.Some? ==> item.localPlace.value.parent != id)
    && (item.onedrivePlace.Some? ==> item.onedrivePlace.value.parent != id)
    && (item.syncedPlace.Some? ==> item.syncedPlace.value.parent != id)
    && ((item.kind.File? && item.localPlace.Some?) <==> item.localContent.Some?)
    && ((item.kind.File? && item.onedrivePlace.Some?) <==> item.onedriveContent.Some?)
    && (item.onedriveContent.Some? ==> item.onedriveContent.value.Hashed?)
    && (item.kind.File? || (item.syncedContent.None? && item.contentPresence.NotOnDisk? && item.contentBeforeWrite.None?))
    && (item.localPlace.Some? || (item.contentPresence.NotOnDisk? && item.contentBeforeWrite.None?))
  }

  /** The unique indexes of local places and of bindings. */
  predicate IsUnique(rows: Rows, id: ItemId, item: Item) {
    forall other <- rows :: other != id ==>
      && (item.localPlace.Some? ==> rows[other].localPlace != item.localPlace)
      && (item.binding.Some? ==> rows[other].binding != item.binding)
  }

  /** The triggers that let a row name only the row of a directory as its parent. */
  predicate NamesDirectories(rows: Rows, item: Item) {
    && (item.localPlace.Some? ==> IsDirectoryRow(rows, item.localPlace.value.parent))
    && (item.onedrivePlace.Some? ==> IsDirectoryRow(rows, item.onedrivePlace.value.parent))
    && (item.syncedPlace.Some? ==> IsDirectoryRow(rows, item.syncedPlace.value.parent))
  }

  predicate SchemaAllows(rows: Rows, id: ItemId, item: Item) {
    RowChecks(id, item) && IsUnique(rows, id, item) && NamesDirectories(rows, item)
  }

  predicate NamesAsParent(item: Item, parent: ItemId) {
    || (item.localPlace.Some? && item.localPlace.value.parent == parent)
    || (item.onedrivePlace.Some? && item.onedrivePlace.value.parent == parent)
    || (item.syncedPlace.Some? && item.syncedPlace.value.parent == parent)
  }

  // ---------------------------------------------------------------- the statements

  /**
    The row of `id` is `item`, and the three triggers ran: a stamp is given when local and
    synced first differ, left while they go on differing, and taken when they agree.
  */
  function Put(t: Table, id: ItemId, item: Item): Table {
    t.(rows := t.rows[id := item.(unsentSince := NextStamp(t, id, item))],
       lastUnsentSince := if IsNewlyUnsent(t, id, item) then t.lastUnsentSince + 1 else t.lastUnsentSince)
  }

  predicate IsNewlyUnsent(t: Table, id: ItemId, item: Item) {
    Unsent(item) && !(id in t.rows && t.rows[id].unsentSince.Some?)
  }

  function NextStamp(t: Table, id: ItemId, item: Item): Option<nat> {
    if IsNewlyUnsent(t, id, item) then Some(t.lastUnsentSince + 1)
    else if Unsent(item) then t.rows[id].unsentSince
    else None
  }

  datatype Inserted = Inserted(table: Table, id: ItemId)

  function NewRow(kind: ItemKind, binding: Option<Reference>, place: Option<ItemPlace>, content: Option<ContentVersion>,
                  presence: ContentPresence, isNameIgnored: bool): Item
  {
    Item(binding, kind, place, content, None, None, None, None, None, None, presence, None, Placed, isNameIgnored, 0, 0, false, None)
  }

  function InsertItem(t: Table, kind: ItemKind, binding: Option<Reference>, place: Option<ItemPlace>, content: Option<ContentVersion>,
                      presence: ContentPresence, isNameIgnored: bool): Result<Inserted, Error>
  {
    var id := ItemId(t.lastId + 1);
    var item := NewRow(kind, binding, place, content, presence, isNameIgnored);
    if place.Some? && !IsEntryName(place.value.name) then Err(Refused(AnotherRule))
    else if binding.Some? && binding.value.itemId == "" then Err(Refused(AnotherRule))
    else if !SchemaAllows(t.rows, id, item) then Err(SchemaRule)
    else Ok(Inserted(Put(t.(lastId := t.lastId + 1), id, item), id))
  }

  /** A write of the whole row; the stamp is the schema's and the executable bit has a writer of its own. */
  function WriteItem(t: Table, id: ItemId, item: Item): Result<Table, Error> {
    if (item.localPlace.Some? && !IsEntryName(item.localPlace.value.name)) || (item.syncedPlace.Some? && !IsEntryName(item.syncedPlace.value.name)) then
      Err(Refused(AnotherRule))
    else if item.binding.Some? && item.binding.value.itemId == "" then Err(Refused(AnotherRule))
    else if id !in t.rows then Err(Refused(AnotherRule))
    else if !SchemaAllows(t.rows, id, item) then Err(SchemaRule)
    else Ok(Put(t, id, item.(isExecutable := t.rows[id].isExecutable)))
  }

  function WriteLocalPlace(t: Table, id: ItemId, place: ItemPlace, isNameIgnored: bool): Result<Table, Error> {
    if id !in t.rows then Ok(t)
    else
      var item := t.rows[id].(localPlace := Some(place), isNameIgnored := isNameIgnored);
      if SchemaAllows(t.rows, id, item) then Ok(Put(t, id, item)) else Err(SchemaRule)
  }

  function SetLocalPlace(t: Table, id: ItemId, place: ItemPlace, isNameIgnored: bool): Result<Table, Error> {
    if IsEntryName(place.name) then WriteLocalPlace(t, id, place, isNameIgnored) else Err(Refused(AnotherRule))
  }

  /** A name no file can have: an item steps aside under it until it takes its next place. */
  const ASIDE := "\0/"

  function SetLocalPlaceAside(t: Table, id: ItemId, place: ItemPlace, isNameIgnored: bool): Result<Table, Error> {
    WriteLocalPlace(t, id, place.(name := ASIDE), isNameIgnored)
  }

  function DeleteItem(t: Table, id: ItemId): Result<Table, Error> {
    if id !in t.rows then Ok(t)
    else if id == ROOT || exists other <- t.rows :: NamesAsParent(t.rows[other], id) then Err(SchemaRule)
    else Ok(t.(rows := t.rows - {id}))
  }

  // ---------------------------------------------------------------- what holds of the rows

  /** What the code holds of a row beside what the schema checks. */
  ghost predicate RowOk(rows: Rows, id: ItemId, item: Item) {
    && RowChecks(id, item)
    && (item.localPlace.Some? ==> IsDirectoryRow(rows, item.localPlace.value.parent) && Shown(rows, item.localPlace.value.parent))
    && (item.syncedPlace.Some? ==> IsEntryName(item.syncedPlace.value.name) && IsBoundDirectory(rows, item.syncedPlace.value.parent))
    && (item.onedrivePlace.Some? ==> IsBoundDirectory(rows, item.onedrivePlace.value.parent))
  }

  /** Agreed and OneDrive places are in a directory OneDrive knows. */
  predicate IsBoundDirectory(rows: Rows, id: ItemId) {
    IsDirectoryRow(rows, id) && rows[id].binding.Some?
  }

  ghost predicate StampOk(t: Table, id: ItemId)
    requires id in t.rows
  {
    && (t.rows[id].unsentSince.Some? <==> Unsent(t.rows[id]))
    && (t.rows[id].unsentSince.Some? ==> 1 <= t.rows[id].unsentSince.value <= t.lastUnsentSince)
  }

  /** A row has a stamp exactly while it is unsent; no two have one stamp, none is above the counter. */
  ghost predicate StampsOk(t: Table) {
    && (forall id <- t.rows :: StampOk(t, id))
    && (forall a <- t.rows, b <- t.rows :: a != b && t.rows[a].unsentSince.Some? ==> t.rows[a].unsentSince != t.rows[b].unsentSince)
  }

  ghost predicate RowsOk(rows: Rows) {
    forall id <- rows :: RowOk(rows, id, rows[id])
  }

  ghost predicate RowsUnique(rows: Rows) {
    forall id <- rows :: IsUnique(rows, id, rows[id])
  }

  /** What every statement keeps, also between the steps of an exchange of names. */
  ghost predicate Core(t: Table) {
    && ROOT in t.rows
    && (forall id <- t.rows :: 1 <= id.number <= t.lastId)
    && RowsOk(t.rows)
    && RowsUnique(t.rows)
    && IsTree(ParentsOf(t.rows))
    && StampsOk(t)
  }

  ghost predicate NameOk(item: Item) {
    item.localPlace.Some? ==> IsEntryName(item.localPlace.value.name)
  }

  /** The invariant: the core, and every local name a proper one. */
  ghost predicate Valid(t: Table) {
    Core(t) && forall id <- t.rows :: NameOk(t.rows[id])
  }

  // ---------------------------------------------------------------- what a statement keeps

  lemma PutKeepsStamps(t: Table, id: ItemId, item: Item)
    requires StampsOk(t)
    ensures StampsOk(Put(t, id, item))
  {
  }

  /** A directory is still what the rows that name it ask of it. */
  ghost predicate StillHolds(rows: Rows, next: Rows, item: Item) {
    && (item.localPlace.Some? ==> IsDirectoryRow(next, item.localPlace.value.parent) && Shown(next, item.localPlace.value.parent))
    && (item.syncedPlace.Some? ==> IsBoundDirectory(next, item.syncedPlace.value.parent))
    && (item.onedrivePlace.Some? ==> IsBoundDirectory(next, item.onedrivePlace.value.parent))
  }

  lemma RowOkCarries(rows: Rows, next: Rows, id: ItemId, item: Item)
    requires RowOk(rows, id, item) && StillHolds(rows, next, item)
    ensures forall stamp :: RowOk(next, id, item.(unsentSince := stamp))
  {
  }

  lemma PutKeepsUnique(t: Table, id: ItemId, item: Item)
    requires RowsUnique(t.rows) && IsUnique(t.rows, id, item)
    ensures RowsUnique(Put(t, id, item).rows)
  {
  }

  /**
    One row is written. Its kind stays; while rows name it as their directory it stays
    shown, and bound for those that name it on the side of OneDrive or as agreed.
  */
  lemma PutKeepsCore(t: Table, id: ItemId, item: Item)
    requires Core(t) && 1 <= id.number <= t.lastId
    requires RowOk(t.rows, id, item) && IsUnique(t.rows, id, item)
    requires id in t.rows ==> item.kind == t.rows[id].kind
    requires id in t.rows && item.localPlace.None? && id != ROOT ==> forall c <- t.rows :: t.rows[c].localPlace.Some? ==> t.rows[c].localPlace.value.parent != id
    requires id in t.rows && item.binding.None? ==> t.rows[id].binding.None?
    requires IsTree(ParentsOf(t.rows[id := item]))
    ensures Core(Put(t, id, item))
  {
    var u := Put(t, id, item);
    PutKeepsStamps(t, id, item);
    PutKeepsUnique(t, id, item);
    ParentsIgnoreStamps(t.rows, id, item, u.rows[id].unsentSince);
    PutKeepsRows(t.rows, u.rows, id, item);
  }

  lemma ParentsIgnoreStamps(rows: Rows, id: ItemId, item: Item, stamp: Option<nat>)
    ensures ParentsOf(rows[id := item.(unsentSince := stamp)]) == ParentsOf(rows[id := item])
  {
  }

  lemma PutKeepsRows(rows: Rows, next: Rows, id: ItemId, item: Item)
    requires RowsOk(rows) && RowOk(rows, id, item)
    requires id in next && next == rows[id := item.(unsentSince := next[id].unsentSince)]
    requires id in rows ==> item.kind == rows[id].kind && (item.binding.None? ==> rows[id].binding.None?)
    requires id in rows && !Shown(next, id) ==> forall c <- rows :: rows[c].localPlace.Some? ==> rows[c].localPlace.value.parent != id
    ensures RowsOk(next)
  {
    forall a <- next
      ensures RowOk(next, a, next[a])
    {
      var was := if a == id then item else rows[a];
      assert RowOk(rows, a, was);
      PutKeepsParents(rows, next, id, was);
      RowOkCarries(rows, next, a, was);
    }
  }

  lemma PutKeepsParents(rows: Rows, next: Rows, id: ItemId, item: Item)
    requires id in next && next.Keys == rows.Keys + {id} && (forall a <- rows :: a != id ==> next[a] == rows[a])
    requires id in rows ==> next[id].kind == rows[id].kind && (rows[id].binding.Some? ==> next[id].binding.Some?)
    requires item.localPlace.Some? ==> IsDirectoryRow(rows, item.localPlace.value.parent) && Shown(rows, item.localPlace.value.parent)
    requires item.localPlace.Some? && item.localPlace.value.parent == id ==> Shown(next, id)
    requires item.syncedPlace.Some? ==> IsBoundDirectory(rows, item.syncedPlace.value.parent)
    requires item.onedrivePlace.Some? ==> IsBoundDirectory(rows, item.onedrivePlace.value.parent)
    ensures StillHolds(rows, next, item)
  {
  }

  /** A row that is nobody's parent is deleted. */
  lemma DeleteKeepsCore(t: Table, id: ItemId)
    requires Core(t) && id in t.rows && id != ROOT
    requires forall c <- t.rows :: !NamesAsParent(t.rows[c], id)
    ensures DeleteItem(t, id) == Ok(t.(rows := t.rows - {id}))
    ensures Core(t.(rows := t.rows - {id}))
  {
    hide RowsOk, RowsUnique, StampsOk, IsTree, NamesAsParent, ParentsOf;
    NothingNamesIt(t.rows, id);
    RemoveKeepsTree(ParentsOf(t.rows), id);
    DeleteKeepsRows(t.rows, id);
    DeleteKeepsStamps(t, id);
  }

  lemma NothingNamesIt(rows: Rows, id: ItemId)
    requires forall c <- rows :: !NamesAsParent(rows[c], id)
    ensures forall c <- ParentsOf(rows) :: ParentsOf(rows)[c] != id
    ensures ParentsOf(rows - {id}) == ParentsOf(rows) - {id}
  {
  }

  lemma DeleteKeepsStamps(t: Table, id: ItemId)
    requires StampsOk(t)
    ensures StampsOk(t.(rows := t.rows - {id}))
  {
  }

  lemma DeleteKeepsRows(rows: Rows, id: ItemId)
    requires RowsOk(rows) && RowsUnique(rows)
    requires forall c <- rows :: !NamesAsParent(rows[c], id)
    ensures RowsOk(rows - {id}) && RowsUnique(rows - {id})
  {
  }

  // ---------------------------------------------------------------- what is OneDrive's and agreed

  /** What goes wherever the binding goes: the columns of OneDrive's version and the agreed ones. */
  datatype OneDriveSide = OneDriveSide(
    binding: Reference, kind: ItemKind, place: Option<ItemPlace>, content: Option<ContentVersion>, etag: Option<string>, mime: Option<string>,
    placement: Placement, confirmedAtCount: nat, seenInFullListing: nat, syncedPlace: Option<ItemPlace>, syncedContent: Option<ContentVersion>)

  function SideOf(item: Item): OneDriveSide
    requires item.binding.Some?
  {
    OneDriveSide(item.binding.value, item.kind, item.onedrivePlace, item.onedriveContent, item.onedriveEtag, item.onedriveMime,
                 item.placement, item.confirmedAtCount, item.seenInFullListing, item.syncedPlace, item.syncedContent)
  }

  /** What the rows say of OneDrive, whichever row says it. */
  ghost function OneDriveSides(rows: Rows): set<OneDriveSide> {
    set id | id in rows && rows[id].binding.Some? :: SideOf(rows[id])
  }

  lemma PutKeepsSides(t: Table, id: ItemId, item: Item)
    requires item.binding.None? ==> id !in t.rows || t.rows[id].binding.None?
    requires item.binding.Some? ==> id in t.rows && t.rows[id].binding.Some? && SideOf(item) == SideOf(t.rows[id])
    ensures OneDriveSides(Put(t, id, item).rows) == OneDriveSides(t.rows)
  {
    var u := Put(t, id, item);
    forall side <- OneDriveSides(t.rows)
      ensures side in OneDriveSides(u.rows)
    {
      var a :| a in t.rows && t.rows[a].binding.Some? && SideOf(t.rows[a]) == side;
      assert a in u.rows && u.rows[a].binding.Some? && SideOf(u.rows[a]) == side;
    }
    forall side <- OneDriveSides(u.rows)
      ensures side in OneDriveSides(t.rows)
    {
      var a :| a in u.rows && u.rows[a].binding.Some? && SideOf(u.rows[a]) == side;
      assert a in t.rows && t.rows[a].binding.Some? && SideOf(t.rows[a]) == side;
    }
  }
}
