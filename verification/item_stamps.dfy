/**
  When a row that goes on differing keeps its stamp: always, but for one case of a file
  saved over another, and exactly then not.
*/
module ItemStamps {
  import opened Wrappers
  import opened ItemTree
  import opened ItemTable
  import opened ItemChanges
  import opened ItemInvariant
  import opened ItemRuns

  /**
    The file `replacing` stands just where, and has just what, was agreed on of the file
    it is saved over: it agrees for a moment, between taking the binding over and moving.
  */
  predicate AgreesInBetween(rows: Rows, change: LocalVersionChange, id: ItemId) {
    && change.SavedOver? && change.replacing == id && change.replacing in rows && change.saved in rows
    && rows[change.replacing].kind.File? && rows[change.replacing].binding.None? && rows[change.saved].binding.Some?
    && rows[change.replacing].localPlace == rows[change.saved].syncedPlace
    && rows[change.replacing].localContent == rows[change.saved].syncedContent
  }

  /** The row differs in both tables. */
  ghost predicate DiffersInBoth(t: Table, u: Table, id: ItemId) {
    id in t.rows && id in u.rows && Unsent(t.rows[id]) && Unsent(u.rows[id])
  }

  ghost predicate SameStamp(t: Table, u: Table, id: ItemId)
    requires id in t.rows && id in u.rows
  {
    t.rows[id].unsentSince == u.rows[id].unsentSince
  }

  lemma HasStamp(t: Table, id: ItemId)
    requires Valid(t) && id in t.rows && Unsent(t.rows[id])
    ensures t.rows[id].unsentSince.Some? && 1 <= t.rows[id].unsentSince.value <= t.lastUnsentSince
  {
  }

  lemma SavedOverStamp(t: Table, replacing: ItemId, replaced: ItemId, id: ItemId)
    requires Valid(t) && CanSaveOver(t, replacing, replaced)
    requires SaveOver(t, replacing, replaced).Ok? && DiffersInBoth(t, SaveOver(t, replacing, replaced).value, id)
    ensures SameStamp(t, SaveOver(t, replacing, replaced).value, id) <==> !AgreesInBetween(t.rows, SavedOver(replacing, replaced), id)
  {
    SaveOverIsPut(t, replacing, replaced);
    HasStamp(t, id);
    ReplacedStamp(t, replacing, replaced, id);
    hide Valid, CanSaveOver, Replaced, SaveOver, Keeps;
    var u := Replaced(t, replacing, replaced);
    var item := AtPlace(u.rows[replacing], t.rows[replaced].localPlace.value, t.rows[replaced].isNameIgnored);
    assert SaveOver(t, replacing, replaced).value == Put(u, replacing, item);
  }

  /** The stamps once the replaced item left and its binding was taken over. */
  lemma ReplacedStamp(t: Table, replacing: ItemId, replaced: ItemId, id: ItemId)
    requires replacing in t.rows && replaced in t.rows && replacing != replaced
    requires id in t.rows && t.rows[id].unsentSince.Some? && (id == replaced ==> t.rows[id].binding.Some? ==> !TakesOver(t.rows, replacing, replaced) ==> Unsent(Hidden(t.rows[id])))
    requires id == replaced ==> id in Replaced(t, replacing, replaced).rows
    requires Unsent(t.rows[id]) && t.rows[id].unsentSince.value <= t.lastUnsentSince
    ensures var u := Replaced(t, replacing, replaced);
            && id in u.rows && t.lastUnsentSince <= u.lastUnsentSince
            && (AgreesInBetween(t.rows, SavedOver(replacing, replaced), id) ==> u.rows[id].unsentSince.None?)
            && (!AgreesInBetween(t.rows, SavedOver(replacing, replaced), id) ==> u.rows[id].unsentSince == t.rows[id].unsentSince)
  {
  }

  /** Three writes of two rows, in none of which the row agrees. */
  lemma ThreePutsKeepStamp(t: Table, first: ItemId, second: ItemId, aside: Item, placed: Item, last: Item, id: ItemId)
    requires first != second && id in t.rows && t.rows[id].unsentSince.Some? && Unsent(aside)
    ensures var w := Put(Put(Put(t, first, aside), second, placed), first, last);
            (Unsent(w.rows[id]) ==> SameStamp(t, w, id))
  {
  }

  lemma ExchangedStamp(t: Table, first: ItemId, second: ItemId, id: ItemId)
    requires Valid(t) && CanExchange(t, first, second) && ExchangeLocalPlaces(t, first, second).Ok?
    requires DiffersInBoth(t, ExchangeLocalPlaces(t, first, second).value, id)
    ensures SameStamp(t, ExchangeLocalPlaces(t, first, second).value, id)
  {
    ExchangeIsPut(t, first, second);
    HasStamp(t, id);
    AsideDiffers(t, first);
    hide Valid, CanExchange, ExchangeLocalPlaces, Keeps, Put;
    var u, v := Aside(t, first), Halfway(t, first, second);
    ThreePutsKeepStamp(t, first, second,
                       AtPlace(t.rows[first], t.rows[first].localPlace.value.(name := ASIDE), t.rows[first].isNameIgnored),
                       AtPlace(u.rows[second], t.rows[first].localPlace.value, t.rows[first].isNameIgnored),
                       AtPlace(v.rows[first], t.rows[second].localPlace.value, t.rows[second].isNameIgnored), id);
  }

  /** Stepping aside never agrees: nobody agreed on a name no file can have. */
  lemma AsideDiffers(t: Table, first: ItemId)
    requires Valid(t) && first in t.rows && t.rows[first].localPlace.Some?
    ensures Unsent(AtPlace(t.rows[first], t.rows[first].localPlace.value.(name := ASIDE), t.rows[first].isNameIgnored))
  {
  }

  lemma ContentStamp(t: Table, item: ItemId, content: ContentVersion, beforeWrite: Option<ContentVersion>, id: ItemId)
    requires Valid(t) && ChangeContent(t, item, content, beforeWrite).Ok?
    requires DiffersInBoth(t, ChangeContent(t, item, content, beforeWrite).value, id)
    ensures SameStamp(t, ChangeContent(t, item, content, beforeWrite).value, id)
  {
    HasStamp(t, id);
    hide Valid, SchemaAllows;
  }

  lemma MadeStamp(t: Table, change: LocalVersionChange, id: ItemId)
    requires Valid(t) && change.Made? && ApplyChange(t, change).Ok?
    requires DiffersInBoth(t, ApplyChange(t, change).value.table, id)
    ensures SameStamp(t, ApplyChange(t, change).value.table, id)
  {
    var made := MadeTable(t, change);
    assert id.number <= t.lastId;
    MadeUnfolds(t, change);
    hide Valid, ApplyChange;
    assert made.rows[id] == t.rows[id];
    if change.replaced.Some? {
      TakenOverStamp(made, ItemId(t.lastId + 1), change.replaced.value, id);
    }
  }

  /** What a program made, before it takes anything over. */
  function MadeTable(t: Table, change: LocalVersionChange): Table
    requires change.Made?
  {
    WithMade(t, NewRow(change.kind, None, Some(change.place), change.content, if change.kind.File? then OnDisk else NotOnDisk, change.isNameIgnored))
  }

  lemma MadeUnfolds(t: Table, change: LocalVersionChange)
    requires change.Made? && ApplyChange(t, change).Ok?
    ensures match change.replaced
            case None => ApplyChange(t, change).value.table == MadeTable(t, change)
            case Some(replaced) => TakeOverBinding(MadeTable(t, change), ItemId(t.lastId + 1), replaced) == Ok(ApplyChange(t, change).value.table)
  {
    hide SchemaAllows, TakeOverBinding, CheckDirectory, ListDirectoriesUp, CheckReplaced, IsFree, CheckDepth;
  }

  lemma TakenOverStamp(t: Table, taker: ItemId, giver: ItemId, id: ItemId)
    requires TakeOverBinding(t, taker, giver).Ok? && id in t.rows && id in TakeOverBinding(t, taker, giver).value.rows && id != taker
    ensures TakeOverBinding(t, taker, giver).value.rows[id] == t.rows[id]
  {
  }

  /**
    For every change and every row that differs before and after it: the stamp is the same
    if and only if the row did not agree in between.
  */
  lemma StampKeptIff(t: Table, change: LocalVersionChange, id: ItemId)
    requires Valid(t) && ApplyChange(t, change).Ok?
    requires DiffersInBoth(t, ApplyChange(t, change).value.table, id)
    ensures SameStamp(t, ApplyChange(t, change).value.table, id) <==> !AgreesInBetween(t.rows, change, id)
  {
    if change.Made? {
      MadeStamp(t, change, id);
    } else if change.SavedOver? {
      OkIsSavedOver(t, change.replacing, change.saved);
      SavedOverStamp(t, change.replacing, change.saved, id);
    } else {
      OtherStamp(t, change, id);
    }
  }

  lemma OkIsSavedOver(t: Table, replacing: ItemId, replaced: ItemId)
    requires SaveOver(t, replacing, replaced).Ok?
    ensures CanSaveOver(t, replacing, replaced)
  {
  }

  lemma MoveUnfolds(t: Table, item: ItemId, place: ItemPlace, isNameIgnored: bool)
    requires MoveItem(t, item, place, isNameIgnored).Ok?
    ensures item in t.rows && MoveItem(t, item, place, isNameIgnored).value == Put(t, item, AtPlace(t.rows[item], place, isNameIgnored))
  {
  }

  lemma MovedStamp(t: Table, item: ItemId, place: ItemPlace, isNameIgnored: bool, id: ItemId)
    requires Valid(t) && MoveItem(t, item, place, isNameIgnored).Ok?
    requires DiffersInBoth(t, MoveItem(t, item, place, isNameIgnored).value, id)
    ensures SameStamp(t, MoveItem(t, item, place, isNameIgnored).value, id)
  {
    HasStamp(t, id);
    MoveUnfolds(t, item, place, isNameIgnored);
    hide Valid, MoveItem;
  }

  lemma RemoveUnfolds(t: Table, item: ItemId)
    requires Valid(t) && Remove(t, item).Ok?
    ensures item in t.rows && Remove(t, item).value == WithoutLocal(t, item)
  {
    if FindPlaced(t.rows, item).Ok? && HoldsNothing(t.rows, item) {
      RemoveLocalVersionKeeps(t, item);
    }
    hide RemoveLocalVersion, WithoutLocal, Valid, Follows;
  }

  lemma RemovedStamp(t: Table, item: ItemId, id: ItemId)
    requires Valid(t) && Remove(t, item).Ok? && DiffersInBoth(t, Remove(t, item).value, id)
    ensures SameStamp(t, Remove(t, item).value, id)
  {
    HasStamp(t, id);
    RemoveUnfolds(t, item);
    hide Valid, Remove;
  }

  lemma OtherStamp(t: Table, change: LocalVersionChange, id: ItemId)
    requires Valid(t) && !change.Made? && !change.SavedOver? && ApplyChange(t, change).Ok?
    requires DiffersInBoth(t, ApplyChange(t, change).value.table, id)
    ensures SameStamp(t, ApplyChange(t, change).value.table, id)
  {
    hide Valid, MoveItem, Remove, ChangeContent, Unsent;
    match change
    case Moved(item, place, isNameIgnored) => MovedStamp(t, item, place, isNameIgnored, id);
    case Removed(item) => RemovedStamp(t, item, id);
    case OpenedForWriting(item) =>
      var content := ContentOf(t.rows, item);
      ContentStamp(t, item, ChangedHere(content.size, content.mtime, content.mtimeNsec, content.ChangeCount() + 1), Some(BeforeWriteOr(t.rows, item, content)), id);
    case ClosedChanged(item, size, mtime, mtimeNsec) =>
      var count := ContentOf(t.rows, item).ChangeCount();
      ContentStamp(t, item, ChangedHere(size, mtime, mtimeNsec, if count < 1 then 1 else count), None, id);
    case ClosedUnchanged(item) =>
      ContentStamp(t, item, BeforeWriteOr(t.rows, item, ContentOf(t.rows, item)), None, id);
    case Truncated(item, size, mtime, mtimeNsec) =>
      ContentStamp(t, item, ChangedHere(size, mtime, mtimeNsec, ContentOf(t.rows, item).ChangeCount() + 1), None, id);
  }

  /** An exchange of two names gives no row that goes on differing a new stamp. */
  lemma ExchangeKeepsStamp(t: Table, first: ItemId, second: ItemId, id: ItemId)
    requires Valid(t) && ExchangeLocalPlaces(t, first, second).Ok?
    requires DiffersInBoth(t, ExchangeLocalPlaces(t, first, second).value, id)
    ensures SameStamp(t, ExchangeLocalPlaces(t, first, second).value, id)
  {
    OkIsExchange(t, first, second);
    ExchangedStamp(t, first, second, id);
  }

  lemma OkIsExchange(t: Table, first: ItemId, second: ItemId)
    requires ExchangeLocalPlaces(t, first, second).Ok?
    ensures CanExchange(t, first, second)
  {
  }

  // ---------------------------------------------------------------- whole runs

  /** The row differs before the first of the changes and after each. */
  ghost predicate DiffersAfterEach(t: Table, changes: seq<LocalVersionChange>, id: ItemId)
    decreases |changes|
  {
    && id in t.rows && Unsent(t.rows[id])
    && (changes != [] && ApplyChange(t, changes[0]).Ok? ==> DiffersAfterEach(ApplyChange(t, changes[0]).value.table, changes[1..], id))
  }

  /** The row agrees in between two statements of none of the changes. */
  ghost predicate NoneAgrees(t: Table, changes: seq<LocalVersionChange>, id: ItemId)
    decreases |changes|
  {
    changes != [] && ApplyChange(t, changes[0]).Ok? ==>
      !AgreesInBetween(t.rows, changes[0], id) && NoneAgrees(ApplyChange(t, changes[0]).value.table, changes[1..], id)
  }

  /** The changes of the operation, when it is not refused. */
  function ChangesOf(t: Table, operation: Operation): seq<LocalVersionChange> {
    if operation.Apply? && Attempt(t, operation).Ok? then operation.changes else []
  }

  /** The row differs from the first operation of the run to the last, and after every change in between. */
  ghost predicate GoesOnDiffering(t: Table, operations: seq<Operation>, id: ItemId)
    decreases |operations|
  {
    && id in t.rows && Unsent(t.rows[id])
    && (operations != [] ==> DiffersAfterEach(t, ChangesOf(t, operations[0]), id) && GoesOnDiffering(Step(t, operations[0]), operations[1..], id))
  }

  ghost predicate NeverAgrees(t: Table, operations: seq<Operation>, id: ItemId)
    decreases |operations|
  {
    operations != [] ==> NoneAgrees(t, ChangesOf(t, operations[0]), id) && NeverAgrees(Step(t, operations[0]), operations[1..], id)
  }

  /** A stamp given anew is later than all there were, so the one before does not come back. */
  lemma StampDoesNotComeBack(t: Table, u: Table, v: Table, id: ItemId)
    requires Valid(t) && Follows(t, u) && Follows(u, v) && DiffersInBoth(t, u, id) && DiffersInBoth(u, v, id) && Valid(v)
    ensures SameStamp(t, v, id) <==> SameStamp(t, u, id) && SameStamp(u, v, id)
  {
    HasStamp(t, id);
    HasStamp(v, id);
    hide Valid, Unsent;
  }

  lemma {:induction false} AllKeepStampIff(t: Table, changes: seq<LocalVersionChange>, id: ItemId)
    requires Valid(t) && ApplyAll(t, changes).Ok? && DiffersAfterEach(t, changes, id)
    ensures DiffersInBoth(t, ApplyAll(t, changes).value, id)
    ensures SameStamp(t, ApplyAll(t, changes).value, id) <==> NoneAgrees(t, changes, id)
    decreases |changes|
  {
    hide Valid, ApplyChange, Follows, Unsent, AgreesInBetween;
    if changes != [] {
      var u := ApplyChange(t, changes[0]).value.table;
      ApplyChangeKeeps(t, changes[0]);
      ApplyAllKeeps(u, changes[1..]);
      StampKeptIff(t, changes[0], id);
      AllKeepStampIff(u, changes[1..], id);
      StampDoesNotComeBack(t, u, ApplyAll(u, changes[1..]).value, id);
    }
  }

  lemma StepKeepsStampIff(t: Table, operation: Operation, id: ItemId)
    requires Valid(t) && DiffersAfterEach(t, ChangesOf(t, operation), id)
    requires id in Step(t, operation).rows && Unsent(Step(t, operation).rows[id])
    ensures SameStamp(t, Step(t, operation), id) <==> NoneAgrees(t, ChangesOf(t, operation), id)
  {
    hide Valid, ApplyAll, ExchangeLocalPlaces, Unsent;
    if Attempt(t, operation).Ok? {
      match operation
      case Apply(changes) => AllKeepStampIff(t, changes, id);
      case Exchange(first, second) => ExchangeKeepsStamp(t, first, second, id);
    }
  }

  /**
    Over every run through which a row goes on differing, its stamp is the same at the end
    if and only if the row agreed in between two statements of no change.
  */
  lemma {:induction false} RunKeepsStampIff(t: Table, operations: seq<Operation>, id: ItemId)
    requires Valid(t) && GoesOnDiffering(t, operations, id)
    ensures id in Run(t, operations).rows && Unsent(Run(t, operations).rows[id])
    ensures SameStamp(t, Run(t, operations), id) <==> NeverAgrees(t, operations, id)
    decreases |operations|
  {
    hide Valid, Step, Follows, Unsent, NoneAgrees, DiffersAfterEach, ChangesOf;
    if operations != [] {
      var u := Step(t, operations[0]);
      StepKeeps(t, operations[0]);
      RunKeeps(u, operations[1..]);
      StepKeepsStampIff(t, operations[0], id);
      RunKeepsStampIff(u, operations[1..], id);
      StampDoesNotComeBack(t, u, Run(u, operations[1..]), id);
    }
  }

  // ---------------------------------------------------------------- the case that does happen

  const CONTENT := Hashed(1, 0, 0, None, None)

  /**
    The file 2, agreed on as "a", was renamed "b" here; the new file 3, of the same content,
    took the name "a" since.
  */
  const RENAMED_AND_MADE_ANEW: Table := Table(
    map[ROOT := NewRow(Directory, Some(Reference("drive", "root")), None, None, NotOnDisk, false),
        ItemId(2) := Item(Some(Reference("drive", "file")), File, Some(ItemPlace(ROOT, "b")), Some(CONTENT), Some(ItemPlace(ROOT, "a")), Some(CONTENT),
                          None, None, Some(ItemPlace(ROOT, "a")), Some(CONTENT), OnDisk, None, Placed, false, 0, 0, false, Some(1)),
        ItemId(3) := Item(None, File, Some(ItemPlace(ROOT, "a")), Some(CONTENT), None, None,
                          None, None, None, None, OnDisk, None, Placed, false, 0, 0, false, Some(2))],
    3, 2)

  lemma RenamedAndMadeAnewIsTree()
    ensures var p := ParentsOf(RENAMED_AND_MADE_ANEW.rows);
            && p == map[ItemId(2) := ROOT, ItemId(3) := ROOT]
            && IsTree(p) && CanHold(p, ROOT, ItemId(3))
  {
    var p: Parents := map[ItemId(2) := ROOT, ItemId(3) := ROOT];
    assert ParentsOf(RENAMED_AND_MADE_ANEW.rows) == p;
    assert Up(p, ROOT, MAX_CHAIN) == Some([ROOT]) && Up(p, ROOT, MAX_CHAIN + 1) == Some([ROOT]);
    assert Children(p, {ItemId(3)}) == {};
    assert LevelsBelow(p, {ItemId(3)}, MAX_CHAIN + 1) == 0;
  }

  lemma RenamedAndMadeAnewRow(id: ItemId)
    requires id == ROOT || id == ItemId(2) || id == ItemId(3)
    ensures id in RENAMED_AND_MADE_ANEW.rows
    ensures RowOk(RENAMED_AND_MADE_ANEW.rows, id, RENAMED_AND_MADE_ANEW.rows[id]) && NameOk(RENAMED_AND_MADE_ANEW.rows[id])
  {
    if id == ROOT {
    } else if id == ItemId(2) {
    } else {
    }
  }

  lemma RenamedAndMadeAnewRows()
    ensures RowsOk(RENAMED_AND_MADE_ANEW.rows) && RowsUnique(RENAMED_AND_MADE_ANEW.rows)
    ensures forall id <- RENAMED_AND_MADE_ANEW.rows :: NameOk(RENAMED_AND_MADE_ANEW.rows[id])
  {
    var rows := RENAMED_AND_MADE_ANEW.rows;
    assert "a"[0] != "b"[0] && "root"[0] != "file"[0];
    hide RowOk, NameOk;
    forall id <- rows
      ensures RowOk(rows, id, rows[id]) && NameOk(rows[id])
    {
      RenamedAndMadeAnewRow(id);
    }
  }

  lemma RenamedAndMadeAnewStamps()
    ensures StampsOk(RENAMED_AND_MADE_ANEW)
  {
  }

  lemma RenamedAndMadeAnewIsValid()
    ensures Valid(RENAMED_AND_MADE_ANEW)
  {
    RenamedAndMadeAnewIsTree();
    RenamedAndMadeAnewRows();
    RenamedAndMadeAnewStamps();
    hide RowsOk, RowsUnique, IsTree, StampsOk, NameOk;
  }

  lemma CanSaveOverRenamed()
    ensures CanSaveOver(RENAMED_AND_MADE_ANEW, ItemId(3), ItemId(2))
  {
  }

  /** Saved over under its agreed name, the file 3 differs before and after, and has a later stamp. */
  lemma StampMayChange()
    ensures var change := SavedOver(ItemId(3), ItemId(2));
            var t := RENAMED_AND_MADE_ANEW;
            && Valid(t) && ApplyChange(t, change).Ok? && DiffersInBoth(t, ApplyChange(t, change).value.table, ItemId(3))
            && !SameStamp(t, ApplyChange(t, change).value.table, ItemId(3))
  {
    var t, change := RENAMED_AND_MADE_ANEW, SavedOver(ItemId(3), ItemId(2));
    RenamedAndMadeAnewIsValid();
    CanSaveOverRenamed();
    SaveOverIsPut(t, ItemId(3), ItemId(2));
    var u := Replaced(t, ItemId(3), ItemId(2));
    assert u.rows[ItemId(3)].syncedPlace == Some(ItemPlace(ROOT, "a"));
    var done := ApplyChange(t, change).value.table;
    assert done == Put(u, ItemId(3), AtPlace(u.rows[ItemId(3)], ItemPlace(ROOT, "b"), false));
    assert "a"[0] != "b"[0];
    assert Unsent(done.rows[ItemId(3)]);
    StampKeptIff(t, change, ItemId(3));
  }
}
