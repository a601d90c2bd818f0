/**
  The main results about the rows: every operation, and so every run of operations, keeps
  one rooted tree, every binding with all that is OneDrive's, and the stamps.
*/
module ItemRuns {
  import opened Wrappers
  import opened ItemTree
  import opened ItemTable
  import opened ItemChanges
  import opened ItemInvariant

  // ---------------------------------------------------------------- made

  /** The table with a new row for what a program made. */
  function WithMade(t: Table, item: Item): Table {
    Put(t.(lastId := t.lastId + 1), ItemId(t.lastId + 1), item)
  }

  lemma MadeRow(rows: Rows, id: ItemId, item: Item)
    requires id !in rows && id != ROOT && item.binding.None? && item.syncedPlace.None? && item.onedrivePlace.None? && RowChecks(id, item)
    requires item.localPlace.Some? && IsFree(rows, item.localPlace.value) && CheckDirectory(rows, item.localPlace.value.parent).Pass?
    ensures RowOk(rows, id, item) && IsUnique(rows, id, item) && SchemaAllows(rows, id, item)
  {
  }

  /** An id that was never given is on no walk up. */
  lemma NewIsNobodysParent(t: Table, id: ItemId)
    requires Core(t) && id.number > t.lastId
    ensures id !in t.rows && id != ROOT && HoldsNothing(t.rows, id)
  {
  }

  lemma InsertKeeps(t: Table, kind: ItemKind, place: ItemPlace, content: Option<ContentVersion>, presence: ContentPresence, isNameIgnored: bool)
    requires Valid(t) && (kind.File? <==> content.Some?) && presence == (if kind.File? then OnDisk else NotOnDisk)
    requires IsEntryName(place.name) && IsFree(t.rows, place) && CheckDirectory(t.rows, place.parent).Pass?
    requires ListDirectoriesUp(t.rows, place.parent).Ok? && CheckDepth(ListDirectoriesUp(t.rows, place.parent).value, 0).Pass?
    ensures var item := NewRow(kind, None, Some(place), content, presence, isNameIgnored);
            && InsertItem(t, kind, None, Some(place), content, presence, isNameIgnored) == Ok(Inserted(WithMade(t, item), ItemId(t.lastId + 1)))
            && Valid(WithMade(t, item)) && Follows(t, WithMade(t, item))
  {
    var id := ItemId(t.lastId + 1);
    var item := NewRow(kind, None, Some(place), content, presence, isNameIgnored);
    NewIsNobodysParent(t, id);
    assert RowChecks(id, item);
    MadeRow(t.rows, id, item);
    ShownIsInTree(t.rows, place.parent);
    ParentsOfPlaced(t.rows, id, item);
    MadeCore(t, item);
    hide Core, IsTree, Put;
    PutKeepsNames(t.(lastId := t.lastId + 1), id, item);
    MadeFollows(t, item);
  }

  lemma MadeFollows(t: Table, item: Item)
    requires Core(t) && item.binding.None?
    ensures Follows(t, WithMade(t, item))
  {
    NewIsNobodysParent(t, ItemId(t.lastId + 1));
    PutKeepsSides(t.(lastId := t.lastId + 1), ItemId(t.lastId + 1), item);
  }

  lemma MadeTree(rows: Rows, id: ItemId, item: Item)
    requires IsTree(ParentsOf(rows)) && id !in rows && id != ROOT && HoldsNothing(rows, id)
    requires item.localPlace.Some? && Shown(rows, item.localPlace.value.parent)
    requires ListDirectoriesUp(rows, item.localPlace.value.parent).Ok?
    requires CheckDepth(ListDirectoriesUp(rows, item.localPlace.value.parent).value, 0).Pass?
    ensures IsTree(ParentsOf(rows[id := item]))
  {
    ShownIsInTree(rows, item.localPlace.value.parent);
    AddKeepsTree(ParentsOf(rows), id, item.localPlace.value.parent);
    ParentsOfPlaced(rows, id, item);
  }

  lemma MadeCore(t: Table, item: Item)
    requires Core(t) && item.localPlace.Some?
    requires RowOk(t.rows, ItemId(t.lastId + 1), item) && IsUnique(t.rows, ItemId(t.lastId + 1), item)
    requires ListDirectoriesUp(t.rows, item.localPlace.value.parent).Ok?
    requires CheckDepth(ListDirectoriesUp(t.rows, item.localPlace.value.parent).value, 0).Pass?
    ensures Core(WithMade(t, item))
  {
    NewIsNobodysParent(t, ItemId(t.lastId + 1));
    CoreCounted(t);
    hide IsTree;
    MadeTree(t.rows, ItemId(t.lastId + 1), item);
    PutKeepsCore(t.(lastId := t.lastId + 1), ItemId(t.lastId + 1), item);
  }

  lemma CoreCounted(t: Table)
    requires Core(t)
    ensures Core(t.(lastId := t.lastId + 1))
  {
  }

  lemma MadeCanTakeOver(t: Table, item: Item, replaced: ItemId)
    requires Core(t) && item.kind.File? && item.binding.None? && item.localPlace.Some?
    requires CheckReplaced(t.rows, File, replaced).Pass?
    ensures CanTakeOver(WithMade(t, item).rows, ItemId(t.lastId + 1), replaced)
  {
  }

  ghost predicate CanMake(rows: Rows, kind: ItemKind, place: ItemPlace, content: Option<ContentVersion>) {
    && kind.File? == content.Some? && CheckDirectory(rows, place.parent).Pass? && ListDirectoriesUp(rows, place.parent).Ok?
    && CheckDepth(ListDirectoriesUp(rows, place.parent).value, 0).Pass? && IsFree(rows, place) && IsEntryName(place.name)
  }

  lemma MakeKeeps(t: Table, kind: ItemKind, place: ItemPlace, content: Option<ContentVersion>, isNameIgnored: bool, replaced: Option<ItemId>)
    requires Valid(t)
    ensures match Make(t, kind, place, content, isNameIgnored, replaced)
            case Ok(made) => Valid(made.table) && Follows(t, made.table)
            case Err(e) => e.Refused?
  {
    hide Make, CheckReplaced, WithMade, TakenOver, TakeOverBinding, InsertItem, CanTakeOver, Core, Follows;
    if CanMake(t.rows, kind, place, content) && CheckAnyReplaced(t.rows, kind, replaced).Pass? {
      var presence := if kind.File? then OnDisk else NotOnDisk;
      var item := NewRow(kind, None, Some(place), content, presence, isNameIgnored);
      InsertKeeps(t, kind, place, content, presence, isNameIgnored);
      MakeUnfolds(t, kind, place, content, isNameIgnored, replaced);
      if replaced.Some? {
        var made := WithMade(t, item);
        OnlyFilesReplace(t.rows, kind, replaced.value);
        IdsAreGiven(t);
        MadeCanTakeOver(t, item, replaced.value);
        TakeOverKeeps(made, ItemId(t.lastId + 1), replaced.value);
        FollowsOn(t, made, TakenOver(made, ItemId(t.lastId + 1), replaced.value));
      }
    } else {
      RefusedMake(t, kind, place, content, isNameIgnored, replaced);
    }
  }

  lemma OnlyFilesReplace(rows: Rows, kind: ItemKind, replaced: ItemId)
    requires CheckReplaced(rows, kind, replaced).Pass?
    ensures kind.File?
  {
  }

  lemma MakeUnfolds(t: Table, kind: ItemKind, place: ItemPlace, content: Option<ContentVersion>, isNameIgnored: bool, replaced: Option<ItemId>)
    requires CanMake(t.rows, kind, place, content) && CheckAnyReplaced(t.rows, kind, replaced).Pass?
    ensures var presence := if kind.File? then OnDisk else NotOnDisk;
            var inserted := InsertItem(t, kind, None, Some(place), content, presence, isNameIgnored);
            Make(t, kind, place, content, isNameIgnored, replaced) ==
            if inserted.Err? || replaced.None? then inserted
            else
              match TakeOverBinding(inserted.value.table, inserted.value.id, replaced.value)
              case Ok(taken) => Ok(Inserted(taken, inserted.value.id))
              case Err(e) => Err(e)
  {
    hide InsertItem, TakeOverBinding, CheckDirectory, ListDirectoriesUp, CheckDepth, IsFree, IsEntryName, CheckReplaced;
  }

  lemma RefusedMake(t: Table, kind: ItemKind, place: ItemPlace, content: Option<ContentVersion>, isNameIgnored: bool, replaced: Option<ItemId>)
    requires !CanMake(t.rows, kind, place, content) || CheckAnyReplaced(t.rows, kind, replaced).Fail?
    ensures Make(t, kind, place, content, isNameIgnored, replaced).Err? && Make(t, kind, place, content, isNameIgnored, replaced).error.Refused?
  {
    hide TakeOverBinding, SchemaAllows, IsFree, IsEntryName, Put;
  }

  // ---------------------------------------------------------------- saved over

  /** What the checks of a save leave. */
  ghost predicate CanSaveOver(t: Table, replacing: ItemId, replaced: ItemId) {
    && replacing != replaced
    && FindPlaced(t.rows, replacing).Ok? && FindPlaced(t.rows, replaced).Ok?
    && t.rows[replacing].kind == t.rows[replaced].kind
    && HoldsNothing(t.rows, replaced)
    && CheckCanHold(t.rows, t.rows[replaced].localPlace.value.parent, replacing).Pass?
  }

  /** The rows once the replaced item left and the replacing one took what it takes. */
  function Replaced(t: Table, replacing: ItemId, replaced: ItemId): Table
    requires replacing in t.rows && replaced in t.rows && replacing != replaced
  {
    var removed := WithoutLocal(t, replaced);
    if TakesOver(t.rows, replacing, replaced) then TakenOver(removed, replacing, replaced) else removed
  }

  lemma ReplacedKeeps(t: Table, replacing: ItemId, replaced: ItemId)
    requires Valid(t) && CanSaveOver(t, replacing, replaced)
    ensures var u := Replaced(t, replacing, replaced);
            Valid(u) && Follows(t, u) && ParentsOf(u.rows) == ParentsOf(t.rows) - {replaced}
    ensures RemoveLocalVersion(t, replaced) == Ok(WithoutLocal(t, replaced))
    ensures TakesOver(t.rows, replacing, replaced) ==>
              TakeOverBinding(WithoutLocal(t, replaced), replacing, replaced) == Ok(Replaced(t, replacing, replaced))
  {
    RemoveLocalVersionKeeps(t, replaced);
    if TakesOver(t.rows, replacing, replaced) {
      var removed := WithoutLocal(t, replaced);
      ReplacingCanTakeOver(t, replacing, replaced);
      IdsAreGiven(t);
      hide Valid, Core, Follows, TakenOver, WithoutLocal, TakeOverBinding, RemoveLocalVersion;
      TakeOverKeeps(removed, replacing, replaced);
      FollowsOn(t, removed, TakenOver(removed, replacing, replaced));
    }
  }

  lemma IdsAreGiven(t: Table)
    requires Valid(t)
    ensures forall id <- t.rows :: id.number <= t.lastId
  {
  }

  lemma ReplacingCanTakeOver(t: Table, replacing: ItemId, replaced: ItemId)
    requires CanSaveOver(t, replacing, replaced) && TakesOver(t.rows, replacing, replaced)
    ensures CanTakeOver(WithoutLocal(t, replaced).rows, replacing, replaced)
  {
  }

  /** What the rules of the rows say of one placed item. */
  ghost predicate IsWellPlaced(rows: Rows, id: ItemId) {
    && id in rows && rows[id].localPlace.Some?
    && var place := rows[id].localPlace.value;
    && place.parent != id && Shown(rows, place.parent) && rows[place.parent].kind.Directory?
    && IsEntryName(place.name)
    && (forall c <- rows :: c != id ==> rows[c].localPlace != Some(place))
  }

  lemma PlacedIsWellPlaced(t: Table, id: ItemId)
    requires Valid(t) && id in t.rows && t.rows[id].localPlace.Some?
    ensures IsWellPlaced(t.rows, id)
  {
  }

  /** The replaced item's place is free now, and its directory is shown still. */
  lemma ReplacedPlaceIsFree(t: Table, replacing: ItemId, replaced: ItemId)
    requires IsWellPlaced(t.rows, replaced) && replacing in t.rows && replacing != replaced
    ensures var u, place := Replaced(t, replacing, replaced).rows, t.rows[replaced].localPlace.value;
            && replacing in u && u[replacing].localPlace == t.rows[replacing].localPlace
            && Shown(u, place.parent) && u[place.parent].kind.Directory?
            && (forall c <- u :: c != replacing ==> u[c].localPlace != Some(place))
  {
  }

  lemma ReplacedTree(p: Parents, replacing: ItemId, replaced: ItemId)
    requires IsTree(p) && replacing in p && replaced in p && replacing != replaced
    requires forall id <- p :: p[id] != replaced
    requires CanHold(p, p[replaced], replacing)
    ensures IsTree((p - {replaced})[replacing := p[replaced]])
  {
    var moved := p[replacing := p[replaced]];
    MoveKeepsTree(p, replacing, p[replaced]);
    RemoveKeepsTree(moved, replaced);
    assert moved - {replaced} == (p - {replaced})[replacing := p[replaced]];
  }

  lemma SaveOverUnfolds(t: Table, replacing: ItemId, replaced: ItemId)
    requires CanSaveOver(t, replacing, replaced)
    requires RemoveLocalVersion(t, replaced) == Ok(WithoutLocal(t, replaced))
    requires TakesOver(t.rows, replacing, replaced) ==>
               TakeOverBinding(WithoutLocal(t, replaced), replacing, replaced) == Ok(Replaced(t, replacing, replaced))
    ensures SaveOver(t, replacing, replaced) ==
            SetLocalPlace(Replaced(t, replacing, replaced), replacing, t.rows[replaced].localPlace.value, t.rows[replaced].isNameIgnored)
  {
  }

  lemma SaveOverIsPut(t: Table, replacing: ItemId, replaced: ItemId)
    requires Valid(t) && CanSaveOver(t, replacing, replaced)
    ensures var u := Replaced(t, replacing, replaced);
            && replacing in u.rows
            && SaveOver(t, replacing, replaced) == Ok(Put(u, replacing, AtPlace(u.rows[replacing], t.rows[replaced].localPlace.value, t.rows[replaced].isNameIgnored)))
            && Keeps(u, SaveOver(t, replacing, replaced))
  {
    var u, place := Replaced(t, replacing, replaced), t.rows[replaced].localPlace.value;
    ReplacedKeeps(t, replacing, replaced);
    PlacedIsWellPlaced(t, replaced);
    ReplacedPlaceIsFree(t, replacing, replaced);
    SaveOverUnfolds(t, replacing, replaced);
    CanHoldIsChecked(t.rows, place.parent, replacing);
    assert NameOk(t.rows[replaced]);
    hide Follows, SaveOver, CheckCanHold, Replaced, RemoveLocalVersion, TakeOverBinding, Put, RowsOk, RowsUnique, StampsOk, IsTree;
    ReplacedTree(ParentsOf(t.rows), replacing, replaced);
    PlaceKeepsCore(u, replacing, place, t.rows[replaced].isNameIgnored);
    PutKeepsNames(u, replacing, AtPlace(u.rows[replacing], place, t.rows[replaced].isNameIgnored));
  }

  lemma SaveOverKeeps(t: Table, replacing: ItemId, replaced: ItemId)
    requires Valid(t)
    ensures Keeps(t, SaveOver(t, replacing, replaced))
  {
    if CanSaveOver(t, replacing, replaced) {
      IdsAreGiven(t);
      hide CheckCanHold, SaveOver, Replaced, Valid, Follows, CanSaveOver;
      ReplacedKeeps(t, replacing, replaced);
      SaveOverIsPut(t, replacing, replaced);
      FollowsOn(t, Replaced(t, replacing, replaced), SaveOver(t, replacing, replaced).value);
    } else {
      RefusedSaveOver(t, replacing, replaced);
    }
  }

  lemma RefusedSaveOver(t: Table, replacing: ItemId, replaced: ItemId)
    requires !CanSaveOver(t, replacing, replaced)
    ensures SaveOver(t, replacing, replaced).Err? && SaveOver(t, replacing, replaced).error.Refused?
  {
  }

  // ---------------------------------------------------------------- two names exchanged

  ghost predicate CanExchange(t: Table, first: ItemId, second: ItemId) {
    && first != second
    && FindPlaced(t.rows, first).Ok? && FindPlaced(t.rows, second).Ok?
    && CheckCanHold(t.rows, t.rows[second].localPlace.value.parent, first).Pass?
    && CheckCanHold(t.rows, t.rows[first].localPlace.value.parent, second).Pass?
  }

  function Aside(t: Table, first: ItemId): Table
    requires first in t.rows && t.rows[first].localPlace.Some?
  {
    Put(t, first, AtPlace(t.rows[first], t.rows[first].localPlace.value.(name := ASIDE), t.rows[first].isNameIgnored))
  }

  lemma AsideKeeps(t: Table, first: ItemId)
    requires Valid(t) && first in t.rows && t.rows[first].localPlace.Some?
    ensures Core(Aside(t, first)) && Follows(t, Aside(t, first)) && ParentsOf(Aside(t, first).rows) == ParentsOf(t.rows)
    ensures WriteLocalPlace(t, first, t.rows[first].localPlace.value.(name := ASIDE), t.rows[first].isNameIgnored) == Ok(Aside(t, first))
  {
    var place := t.rows[first].localPlace.value;
    assert RowOk(t.rows, first, t.rows[first]);
    assert ASIDE[0] == '\0';
    forall c <- t.rows | c != first
      ensures t.rows[c].localPlace != Some(place.(name := ASIDE))
    {
      assert NameOk(t.rows[c]);
    }
    assert ParentsOf(t.rows)[first := place.parent] == ParentsOf(t.rows);
    PlaceKeepsCore(t, first, place.(name := ASIDE), t.rows[first].isNameIgnored);
  }

  /** The table between the second and the third statement. */
  function Halfway(t: Table, first: ItemId, second: ItemId): Table
    requires first in t.rows && t.rows[first].localPlace.Some? && second in t.rows
  {
    var aside := Aside(t, first);
    Put(aside, second, AtPlace(aside.rows[second], t.rows[first].localPlace.value, t.rows[first].isNameIgnored))
  }

  lemma HalfwayKeeps(t: Table, first: ItemId, second: ItemId)
    requires Valid(t) && CanExchange(t, first, second)
    ensures var u, v := Aside(t, first), Halfway(t, first, second);
            && SetLocalPlace(u, second, t.rows[first].localPlace.value, t.rows[first].isNameIgnored) == Ok(v)
            && Core(v) && Follows(u, v)
            && ParentsOf(v.rows) == ParentsOf(t.rows)[second := t.rows[first].localPlace.value.parent]
  {
    var u, place := Aside(t, first), t.rows[first].localPlace.value;
    AsideKeeps(t, first);
    CanHoldIsChecked(t.rows, place.parent, second);
    assert NameOk(t.rows[first]);
    PlacedIsWellPlaced(t, first);
    PlacedIsWellPlaced(t, second);
    FirstPlaceIsFree(t, first, second);
    ShownIsInTree(t.rows, place.parent);
    hide Follows, CheckCanHold, Aside, Put, RowsOk, RowsUnique, StampsOk;
    MoveKeepsTree(ParentsOf(t.rows), second, place.parent);
    PlaceKeepsCore(u, second, place, t.rows[first].isNameIgnored);
  }

  lemma FirstPlaceIsFree(t: Table, first: ItemId, second: ItemId)
    requires IsWellPlaced(t.rows, first) && IsWellPlaced(t.rows, second) && first != second
    ensures var u, place := Aside(t, first).rows, t.rows[first].localPlace.value;
            && u[second] == t.rows[second]
            && Shown(u, place.parent) && u[place.parent].kind.Directory?
            && (forall c <- u :: c != second ==> u[c].localPlace != Some(place))
  {
  }

  lemma ExchangeUnfolds(t: Table, first: ItemId, second: ItemId)
    requires CanExchange(t, first, second)
    requires WriteLocalPlace(t, first, t.rows[first].localPlace.value.(name := ASIDE), t.rows[first].isNameIgnored) == Ok(Aside(t, first))
    requires SetLocalPlace(Aside(t, first), second, t.rows[first].localPlace.value, t.rows[first].isNameIgnored) == Ok(Halfway(t, first, second))
    ensures ExchangeLocalPlaces(t, first, second) ==
            SetLocalPlace(Halfway(t, first, second), first, t.rows[second].localPlace.value, t.rows[second].isNameIgnored)
  {
  }

  lemma ExchangeIsPut(t: Table, first: ItemId, second: ItemId)
    requires Valid(t) && CanExchange(t, first, second)
    ensures var v := Halfway(t, first, second);
            && ExchangeLocalPlaces(t, first, second) == Ok(Put(v, first, AtPlace(v.rows[first], t.rows[second].localPlace.value, t.rows[second].isNameIgnored)))
            && Keeps(v, ExchangeLocalPlaces(t, first, second))
  {
    var v, p := Halfway(t, first, second), ParentsOf(t.rows);
    HalfwayKeeps(t, first, second);
    AsideKeeps(t, first);
    ExchangeUnfolds(t, first, second);
    CanHoldIsChecked(t.rows, p[second], first);
    CanHoldIsChecked(t.rows, p[first], second);
    assert NameOk(t.rows[second]);
    PlacedIsWellPlaced(t, first);
    PlacedIsWellPlaced(t, second);
    SecondPlaceIsFree(t, first, second);
    ExchangeNames(t, first, second);
    hide Follows, ExchangeLocalPlaces, CheckCanHold, Halfway, Aside, Put, RowsOk, RowsUnique, StampsOk, IsTree;
    ExchangeKeepsTree(p, second, first);
    PlaceKeepsCore(v, first, t.rows[second].localPlace.value, t.rows[second].isNameIgnored);
  }

  lemma SecondPlaceIsFree(t: Table, first: ItemId, second: ItemId)
    requires IsWellPlaced(t.rows, first) && IsWellPlaced(t.rows, second) && first != second
    ensures var v, place := Halfway(t, first, second).rows, t.rows[second].localPlace.value;
            && v[first].localPlace.Some? && Shown(v, place.parent) && v[place.parent].kind.Directory?
            && (forall c <- v :: c != first ==> v[c].localPlace != Some(place))
  {
  }

  lemma ExchangeNames(t: Table, first: ItemId, second: ItemId)
    requires Valid(t) && CanExchange(t, first, second)
    ensures var v := Halfway(t, first, second);
            var u := Put(v, first, AtPlace(v.rows[first], t.rows[second].localPlace.value, t.rows[second].isNameIgnored));
            forall a <- u.rows :: NameOk(u.rows[a])
  {
    assert NameOk(t.rows[first]) && NameOk(t.rows[second]);
  }

  lemma ExchangeKeeps(t: Table, first: ItemId, second: ItemId)
    requires Valid(t)
    ensures Keeps(t, ExchangeLocalPlaces(t, first, second))
  {
    hide Valid, Core, Follows;
    if CanExchange(t, first, second) {
      var u, v := Aside(t, first), Halfway(t, first, second);
      AsideKeeps(t, first);
      HalfwayKeeps(t, first, second);
      ExchangeIsPut(t, first, second);
      FollowsOn(t, u, v);
      FollowsOn(t, v, ExchangeLocalPlaces(t, first, second).value);
    } else if FindPlaced(t.rows, first).Ok? && FindPlaced(t.rows, second).Ok? {
      CanHoldIsChecked(t.rows, t.rows[second].localPlace.value.parent, first);
      CanHoldIsChecked(t.rows, t.rows[first].localPlace.value.parent, second);
    }
  }

  // ---------------------------------------------------------------- every change, every run

  /** No change trips a rule of the schema, and what it leaves is valid again. */
  lemma ApplyChangeKeeps(t: Table, change: LocalVersionChange)
    requires Valid(t)
    ensures match ApplyChange(t, change)
            case Ok(done) => Valid(done.table) && Follows(t, done.table)
            case Err(e) => e.Refused?
  {
    hide Make, MoveItem, SaveOver, Remove, ChangeContent, Valid, Follows;
    match change
    case Made(kind, place, content, isNameIgnored, replaced) => MakeKeeps(t, kind, place, content, isNameIgnored, replaced);
    case Moved(item, place, isNameIgnored) => MoveItemKeeps(t, item, place, isNameIgnored);
    case SavedOver(replacing, saved) => SaveOverKeeps(t, replacing, saved);
    case Removed(item) => RemoveKeeps(t, item);
    case OpenedForWriting(item) =>
      var content := ContentOf(t.rows, item);
      ChangeContentKeeps(t, item, ChangedHere(content.size, content.mtime, content.mtimeNsec, content.ChangeCount() + 1), Some(BeforeWriteOr(t.rows, item, content)));
    case ClosedChanged(item, size, mtime, mtimeNsec) =>
      var count := ContentOf(t.rows, item).ChangeCount();
      ChangeContentKeeps(t, item, ChangedHere(size, mtime, mtimeNsec, if count < 1 then 1 else count), None);
    case ClosedUnchanged(item) =>
      ChangeContentKeeps(t, item, BeforeWriteOr(t.rows, item, ContentOf(t.rows, item)), None);
    case Truncated(item, size, mtime, mtimeNsec) =>
      ChangeContentKeeps(t, item, ChangedHere(size, mtime, mtimeNsec, ContentOf(t.rows, item).ChangeCount() + 1), None);
  }

  lemma {:induction false} ApplyAllKeeps(t: Table, changes: seq<LocalVersionChange>)
    requires Valid(t)
    ensures Keeps(t, ApplyAll(t, changes))
    decreases |changes|
  {
    if changes != [] {
      ApplyChangeKeeps(t, changes[0]);
      if ApplyChange(t, changes[0]).Ok? {
        var u := ApplyChange(t, changes[0]).value.table;
        ApplyAllKeeps(u, changes[1..]);
        if ApplyAll(u, changes[1..]).Ok? {
          FollowsOn(t, u, ApplyAll(u, changes[1..]).value);
        }
      }
    }
  }

  lemma StepKeeps(t: Table, operation: Operation)
    requires Valid(t)
    ensures Valid(Step(t, operation)) && Follows(t, Step(t, operation))
    ensures Attempt(t, operation).Err? ==> Attempt(t, operation).error.Refused? && Step(t, operation) == t
  {
    match operation
    case Apply(changes) => ApplyAllKeeps(t, changes);
    case Exchange(first, second) => ExchangeKeeps(t, first, second);
  }

  /**
    Whatever is done, in whatever order: the rows stay valid, one tree of directories with
    one item per name; what they say of OneDrive and of what was agreed is the same set,
    no binding lost and none made; a stamp stays, goes, or is given anew.
  */
  lemma {:induction false} RunKeeps(t: Table, operations: seq<Operation>)
    requires Valid(t)
    ensures Valid(Run(t, operations)) && Follows(t, Run(t, operations))
    decreases |operations|
  {
    if operations != [] {
      var u := Step(t, operations[0]);
      StepKeeps(t, operations[0]);
      RunKeeps(u, operations[1..]);
      FollowsOn(t, u, Run(u, operations[1..]));
    }
  }

  lemma NewStoreIsValid()
    ensures Valid(NEW_STORE)
  {
  }

  /** What can be a name in a folder. */
  predicate IsFileName(name: string) {
    name != "" && name != "." && name != ".." && '/' !in name && '\0' !in name
  }

  /** The directory's row, and OneDrive has it. */
  predicate IsKnownDirectory(rows: Rows, id: ItemId) {
    id in rows && rows[id].kind.Directory? && rows[id].binding.Some?
  }

  /**
    In every state a run reaches from a valid table, each row by its columns: what is OneDrive's or
    agreed on only with a binding, a content exactly where there is a file, what is on disk or
    written only of a file that is shown, the root in nothing, and places in directories.
  */
  lemma ReachedRowsKeepTheSchema(t: Table, operations: seq<Operation>, id: ItemId)
    requires Valid(t) && id in Run(t, operations).rows
    ensures var rows := Run(t, operations).rows;
            var item := rows[id];
            && (item.binding.Some? ==> item.binding.value.driveId != "" && item.binding.value.itemId != "")
            && (item.binding.None? ==>
                  && item.syncedPlace.None? && item.syncedContent.None?
                  && item.onedrivePlace.None? && item.onedriveContent.None? && item.onedriveEtag.None? && item.onedriveMime.None?)
            && (item.onedriveMime.Some? ==> item.onedriveContent.Some?)
            && (id == ItemId(1) ==> item.kind.Directory? && item.localPlace.None? && item.onedrivePlace.None? && item.syncedPlace.None?)
            && (item.localPlace.Some? ==> item.localPlace.value.parent != id && IsFileName(item.localPlace.value.name))
            && (item.onedrivePlace.Some? ==> item.onedrivePlace.value.parent != id && IsKnownDirectory(rows, item.onedrivePlace.value.parent))
            && (item.syncedPlace.Some? ==> item.syncedPlace.value.parent != id && IsFileName(item.syncedPlace.value.name) && IsKnownDirectory(rows, item.syncedPlace.value.parent))
            && (item.localContent.Some? <==> item.kind.File? && item.localPlace.Some?)
            && (item.onedriveContent.Some? <==> item.kind.File? && item.onedrivePlace.Some?)
            && (item.onedriveContent.Some? ==> item.onedriveContent.value.Hashed?)
            && (item.kind.Directory? ==> item.syncedContent.None?)
            && (item.contentPresence.OnDisk? || item.contentBeforeWrite.Some? ==> item.kind.File? && item.localPlace.Some?)
  {
    RunKeeps(t, operations);
    var u := Run(t, operations);
    assert RowOk(u.rows, id, u.rows[id]) && NameOk(u.rows[id]);
    hide Run, Follows, RowsOk, RowsUnique, IsTree, StampsOk;
  }

  /** In every reached state a row has a stamp exactly while what the folder shows is not what was agreed on, and no two have one stamp. */
  lemma ReachedStampsAreOfDifferences(t: Table, operations: seq<Operation>, id: ItemId)
    requires Valid(t) && id in Run(t, operations).rows
    ensures var item := Run(t, operations).rows[id];
            && (item.unsentSince.Some? <==> item.localPlace != item.syncedPlace || item.localContent != item.syncedContent)
            && forall other <- Run(t, operations).rows :: other != id && item.unsentSince.Some? ==> Run(t, operations).rows[other].unsentSince != item.unsentSince
  {
    RunKeeps(t, operations);
    hide Run, Follows, RowsOk, RowsUnique, IsTree;
  }

  /** What the rules of the rows come to, in every state a run from a valid table reaches. */
  lemma ReachedRowsAreOneTree(t: Table, operations: seq<Operation>)
    requires Valid(t)
    ensures var rows := Run(t, operations).rows;
            && (forall id <- rows :: rows[id].localPlace.Some? ==>
                  && var parent := rows[id].localPlace.value.parent;
                  && parent in rows && (parent == ItemId(1) || rows[parent].localPlace.Some?) && rows[parent].kind.Directory?
                  && exists s :: IsWayUp(ParentsOf(rows), id, s))
            && (forall id <- rows :: Shown(rows, id) && id != ROOT ==>
                  && rows[id].localPlace.Some?
                  && Shown(rows, rows[id].localPlace.value.parent) && rows[rows[id].localPlace.value.parent].kind.Directory?
                  && IsFileName(rows[id].localPlace.value.name)
                  && Up(ParentsOf(rows), id, MAX_CHAIN + 1).Some?
                  && WalkUp(ParentsOf(rows), id)[|WalkUp(ParentsOf(rows), id)| - 1] == ROOT
                  && |WalkUp(ParentsOf(rows), id)| - 1 <= MAX_CHAIN)
            && (forall a <- rows, b <- rows :: a != b && rows[a].localPlace.Some? ==> rows[a].localPlace != rows[b].localPlace)
            && (forall a <- rows, b <- rows :: a != b && rows[a].binding.Some? ==> rows[a].binding != rows[b].binding)
  {
    RunKeeps(t, operations);
    hide Run, Follows, Valid;
    PlacedAreUnderRoot(Run(t, operations));
    ShownAreUnderRoot(Run(t, operations));
    NoneIsShared(Run(t, operations));
    hide IsWayUp, Up, WalkUp;
  }

  lemma PlacedAreUnderRoot(t: Table)
    requires Valid(t)
    ensures forall id <- t.rows :: t.rows[id].localPlace.Some? ==>
              && var parent := t.rows[id].localPlace.value.parent;
              && parent in t.rows && (parent == ItemId(1) || t.rows[parent].localPlace.Some?) && t.rows[parent].kind.Directory?
              && exists s :: IsWayUp(ParentsOf(t.rows), id, s)
  {
    hide IsTree, IsWayUp, StampsOk, RowsUnique;
    TreeIff(ParentsOf(t.rows));
    forall id <- t.rows | t.rows[id].localPlace.Some?
      ensures Shown(t.rows, t.rows[id].localPlace.value.parent) && IsDirectoryRow(t.rows, t.rows[id].localPlace.value.parent)
      ensures id in ParentsOf(t.rows)
    {
      assert RowOk(t.rows, id, t.rows[id]);
    }
  }

  lemma ShownAreUnderRoot(t: Table)
    requires Valid(t)
    ensures var rows := t.rows;
            forall id <- rows :: Shown(rows, id) && id != ROOT ==>
              && rows[id].localPlace.Some?
              && Shown(rows, rows[id].localPlace.value.parent) && rows[rows[id].localPlace.value.parent].kind.Directory?
              && IsFileName(rows[id].localPlace.value.name)
              && Up(ParentsOf(rows), id, MAX_CHAIN + 1).Some?
              && WalkUp(ParentsOf(rows), id)[|WalkUp(ParentsOf(rows), id)| - 1] == ROOT
              && |WalkUp(ParentsOf(rows), id)| - 1 <= MAX_CHAIN
  {
    hide WalkUp, Up;
    forall id <- t.rows | Shown(t.rows, id) && id != ROOT
      ensures IsWellPlaced(t.rows, id)
      ensures Up(ParentsOf(t.rows), id, MAX_CHAIN + 1).Some?
      ensures WalkUp(ParentsOf(t.rows), id)[|WalkUp(ParentsOf(t.rows), id)| - 1] == ROOT && |WalkUp(ParentsOf(t.rows), id)| - 1 <= MAX_CHAIN
    {
      PlacedIsWellPlaced(t, id);
      WalkUpOfTree(ParentsOf(t.rows), id);
    }
  }

  lemma NoneIsShared(t: Table)
    requires Valid(t)
    ensures forall a <- t.rows, b <- t.rows :: a != b && t.rows[a].localPlace.Some? ==> t.rows[a].localPlace != t.rows[b].localPlace
    ensures forall a <- t.rows, b <- t.rows :: a != b && t.rows[a].binding.Some? ==> t.rows[a].binding != t.rows[b].binding
  {
    hide RowsOk, IsTree, StampsOk;
    forall a <- t.rows
      ensures IsUnique(t.rows, a, t.rows[a])
    {
    }
  }
}
