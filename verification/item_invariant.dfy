/**
  What every local change keeps: the rules of the rows, every binding with all that is
  OneDrive's, and the stamps. And what no change does: trip a rule of the schema.
*/
module ItemInvariant {
  import opened Wrappers
  import opened ItemTree
  import opened ItemTable
  import opened ItemChanges

  /** A stamp stays, goes, or is given anew from the counter. */
  ghost predicate StampFollows(t: Table, u: Table, id: ItemId)
    requires id in t.rows && id in u.rows
  {
    var was, now := t.rows[id].unsentSince, u.rows[id].unsentSince;
    was == now || now.None? || now.value > t.lastUnsentSince
  }

  /** What holds between the tables before and after any change. */
  ghost predicate Follows(t: Table, u: Table) {
    && t.lastId <= u.lastId && t.lastUnsentSince <= u.lastUnsentSince
    && OneDriveSides(t.rows) == OneDriveSides(u.rows)
    && (forall id <- u.rows :: id in t.rows || id.number > t.lastId)
    && (forall id <- u.rows :: id in t.rows ==> u.rows[id].kind == t.rows[id].kind && StampFollows(t, u, id))
  }

  /** The only errors are refusals, and what a change leaves is a valid table that follows. */
  ghost predicate Keeps(t: Table, done: Result<Table, Error>) {
    match done
    case Ok(u) => Valid(u) && Follows(t, u)
    case Err(e) => e.Refused?
  }

  lemma FollowsOn(t: Table, u: Table, v: Table)
    requires Follows(t, u) && Follows(u, v) && (forall id <- t.rows :: id.number <= t.lastId)
    ensures Follows(t, v)
  {
  }

  // ---------------------------------------------------------------- the statements

  lemma PutFollows(t: Table, id: ItemId, item: Item)
    requires id in t.rows ==> item.kind == t.rows[id].kind
    requires id !in t.rows ==> item.binding.None? && id.number > t.lastId
    requires item.binding.None? ==> id !in t.rows || t.rows[id].binding.None?
    requires item.binding.Some? ==> id in t.rows && t.rows[id].binding.Some? && SideOf(item) == SideOf(t.rows[id])
    ensures Follows(t, Put(t, id, item))
  {
    PutKeepsSides(t, id, item);
  }

  function AtPlace(item: Item, place: ItemPlace, isNameIgnored: bool): Item {
    item.(localPlace := Some(place), isNameIgnored := isNameIgnored)
  }

  lemma PlacedRow(rows: Rows, id: ItemId, place: ItemPlace, isNameIgnored: bool)
    requires id in rows && RowOk(rows, id, rows[id]) && IsUnique(rows, id, rows[id]) && rows[id].localPlace.Some?
    requires Shown(rows, place.parent) && rows[place.parent].kind.Directory? && place.parent != id
    requires forall c <- rows :: c != id ==> rows[c].localPlace != Some(place)
    ensures var item := AtPlace(rows[id], place, isNameIgnored);
            RowOk(rows, id, item) && IsUnique(rows, id, item) && SchemaAllows(rows, id, item)
  {
  }

  lemma ParentsOfPlaced(rows: Rows, id: ItemId, item: Item)
    requires item.localPlace.Some?
    ensures ParentsOf(rows[id := item]) == ParentsOf(rows)[id := item.localPlace.value.parent]
  {
  }

  lemma NoItemIsItsOwnParent(p: Parents, id: ItemId)
    requires IsTree(p) && id in p
    ensures !IsTree(p[id := id])
  {
    LoopIsNoTree(p, id, id, WalkUp(p, id));
  }

  /** A placed item is at another place, where nothing is, in a directory that can hold it. */
  lemma PlaceKeepsCore(t: Table, id: ItemId, place: ItemPlace, isNameIgnored: bool)
    requires Core(t) && id in t.rows && t.rows[id].localPlace.Some?
    requires Shown(t.rows, place.parent) && t.rows[place.parent].kind.Directory?
    requires forall c <- t.rows :: c != id ==> t.rows[c].localPlace != Some(place)
    requires IsTree(ParentsOf(t.rows)[id := place.parent])
    ensures WriteLocalPlace(t, id, place, isNameIgnored) == Ok(Put(t, id, AtPlace(t.rows[id], place, isNameIgnored)))
    ensures var u := Put(t, id, AtPlace(t.rows[id], place, isNameIgnored));
            Core(u) && Follows(t, u) && ParentsOf(u.rows) == ParentsOf(t.rows)[id := place.parent]
  {
    var item := AtPlace(t.rows[id], place, isNameIgnored);
    if place.parent == id {
      NoItemIsItsOwnParent(ParentsOf(t.rows), id);
    }
    PlacedRow(t.rows, id, place, isNameIgnored);
    ParentsOfPlaced(t.rows, id, item);
    PutKeepsCore(t, id, item);
    PutFollows(t, id, item);
    ParentsIgnoreStamps(t.rows, id, item, NextStamp(t, id, item));
  }

  lemma PutKeepsNames(t: Table, id: ItemId, item: Item)
    requires (forall a <- t.rows :: NameOk(t.rows[a])) && NameOk(item)
    ensures forall a <- Put(t, id, item).rows :: NameOk(Put(t, id, item).rows[a])
  {
  }

  lemma HiddenRow(rows: Rows, id: ItemId)
    requires id in rows && RowOk(rows, id, rows[id]) && IsUnique(rows, id, rows[id]) && rows[id].binding.Some? && id != ROOT
    ensures RowOk(rows, id, Hidden(rows[id])) && IsUnique(rows, id, Hidden(rows[id])) && SchemaAllows(rows, id, Hidden(rows[id]))
  {
  }

  lemma ParentsOfHidden(rows: Rows, id: ItemId, item: Item)
    requires item.localPlace.None?
    ensures ParentsOf(rows[id := item]) == ParentsOf(rows) - {id}
  {
  }

  lemma ParentsOfDeleted(rows: Rows, id: ItemId)
    ensures ParentsOf(rows - {id}) == ParentsOf(rows) - {id}
  {
  }

  /** Nobody agreed to be in, or has in OneDrive, a directory that OneDrive does not have. */
  lemma UnboundIsNoParent(rows: Rows, id: ItemId)
    requires RowsOk(rows) && id in rows && rows[id].binding.None? && HoldsNothing(rows, id)
    ensures forall c <- rows :: !NamesAsParent(rows[c], id)
  {
  }

  /** What is left when the folder ceases to show an item that holds nothing. */
  function WithoutLocal(t: Table, id: ItemId): Table
    requires id in t.rows
  {
    if t.rows[id].binding.None? then t.(rows := t.rows - {id}) else Put(t, id, Hidden(t.rows[id]))
  }

  lemma RemoveUnboundKeeps(t: Table, id: ItemId)
    requires Core(t) && id in t.rows && t.rows[id].localPlace.Some? && HoldsNothing(t.rows, id) && t.rows[id].binding.None?
    ensures RemoveLocalVersion(t, id) == Ok(WithoutLocal(t, id))
    ensures Core(WithoutLocal(t, id)) && Follows(t, WithoutLocal(t, id))
    ensures ParentsOf(WithoutLocal(t, id).rows) == ParentsOf(t.rows) - {id}
  {
    UnboundIsNoParent(t.rows, id);
    RootHasNoPlace(t.rows, id);
    DeleteKeepsCore(t, id);
    DeleteFollows(t, id);
    ParentsOfDeleted(t.rows, id);
    assert forall c <- t.rows :: !NamesAsParent(t.rows[c], id);
  }

  lemma RootHasNoPlace(rows: Rows, id: ItemId)
    requires id in rows && RowOk(rows, id, rows[id]) && rows[id].localPlace.Some?
    ensures id != ROOT
  {
  }

  lemma RemoveBoundKeeps(t: Table, id: ItemId)
    requires Core(t) && id in t.rows && t.rows[id].localPlace.Some? && HoldsNothing(t.rows, id) && t.rows[id].binding.Some?
    ensures RemoveLocalVersion(t, id) == Ok(WithoutLocal(t, id))
    ensures Core(WithoutLocal(t, id)) && Follows(t, WithoutLocal(t, id))
    ensures ParentsOf(WithoutLocal(t, id).rows) == ParentsOf(t.rows) - {id}
  {
    var hidden := Hidden(t.rows[id]);
    RootHasNoPlace(t.rows, id);
    HiddenRow(t.rows, id);
    ParentsOfHidden(t.rows, id, hidden);
    RemoveKeepsTree(ParentsOf(t.rows), id);
    PutKeepsCore(t, id, hidden);
    PutFollows(t, id, hidden);
    ParentsIgnoreStamps(t.rows, id, hidden, NextStamp(t, id, hidden));
    assert hidden.(isExecutable := t.rows[id].isExecutable) == hidden;
    assert RowOk(t.rows, id, t.rows[id]);
  }

  /** The folder ceases to show an item that holds nothing: nothing of OneDrive's is lost. */
  lemma RemoveLocalVersionKeeps(t: Table, id: ItemId)
    requires Valid(t) && id in t.rows && t.rows[id].localPlace.Some? && HoldsNothing(t.rows, id)
    ensures RemoveLocalVersion(t, id) == Ok(WithoutLocal(t, id))
    ensures Valid(WithoutLocal(t, id)) && Follows(t, WithoutLocal(t, id))
    ensures ParentsOf(WithoutLocal(t, id).rows) == ParentsOf(t.rows) - {id}
  {
    if t.rows[id].binding.None? {
      RemoveUnboundKeeps(t, id);
    } else {
      RemoveBoundKeeps(t, id);
      PutKeepsNames(t, id, Hidden(t.rows[id]));
    }
  }

  lemma DeleteFollows(t: Table, id: ItemId)
    requires id in t.rows && t.rows[id].binding.None?
    ensures Follows(t, t.(rows := t.rows - {id}))
  {
    var u := t.(rows := t.rows - {id});
    forall side <- OneDriveSides(t.rows)
      ensures side in OneDriveSides(u.rows)
    {
      var a :| a in t.rows && t.rows[a].binding.Some? && SideOf(t.rows[a]) == side;
      assert a in u.rows && u.rows[a].binding.Some? && SideOf(u.rows[a]) == side;
    }
    forall side <- OneDriveSides(u.rows)
      ensures side in OneDriveSides(t.rows)
    {
      var a :| a in u.rows && u.rows[a].binding.Some? && SideOf(u.rows[a]) == side;
      assert a in t.rows;
    }
  }

  // ---------------------------------------------------------------- a binding is taken over

  /** No row names a file as its directory, on any side. */
  lemma FileIsNoParent(rows: Rows, id: ItemId)
    requires RowsOk(rows) && id in rows && rows[id].kind.File?
    ensures HoldsNothing(rows, id) && forall c <- rows :: !NamesAsParent(rows[c], id)
  {
  }

  function Taking(taker: Item, giver: Item): Item {
    WithSideOf(taker, giver).(seenInFullListing := giver.seenInFullListing)
  }

  /** What is left when `taker` has all that was OneDrive's of `giver`, whose row is gone. */
  function TakenOver(t: Table, taker: ItemId, giver: ItemId): Table
    requires taker in t.rows && giver in t.rows
  {
    Put(t.(rows := t.rows - {giver}), taker, Taking(t.rows[taker], t.rows[giver]))
  }

  ghost predicate CanTakeOver(rows: Rows, taker: ItemId, giver: ItemId) {
    && taker in rows && rows[taker].kind.File? && rows[taker].binding.None? && rows[taker].localPlace.Some?
    && giver in rows && rows[giver].kind.File? && rows[giver].binding.Some? && rows[giver].localPlace.None?
  }

  lemma TakingRow(rows: Rows, taker: ItemId, giver: ItemId)
    requires RowsOk(rows) && RowsUnique(rows) && CanTakeOver(rows, taker, giver)
    ensures var item := Taking(rows[taker], rows[giver]);
            RowOk(rows - {giver}, taker, item) && IsUnique(rows - {giver}, taker, item)
  {
  }

  lemma TakingSides(t: Table, taker: ItemId, giver: ItemId)
    requires CanTakeOver(t.rows, taker, giver)
    ensures OneDriveSides(TakenOver(t, taker, giver).rows) == OneDriveSides(t.rows)
  {
    var next := TakenOver(t, taker, giver).rows;
    forall side <- OneDriveSides(t.rows)
      ensures side in OneDriveSides(next)
    {
      var a :| a in t.rows && t.rows[a].binding.Some? && SideOf(t.rows[a]) == side;
      var b := if a == giver then taker else a;
      assert b in next && next[b].binding.Some? && SideOf(next[b]) == side;
    }
    forall side <- OneDriveSides(next)
      ensures side in OneDriveSides(t.rows)
    {
      var b :| b in next && next[b].binding.Some? && SideOf(next[b]) == side;
      var a := if b == taker then giver else b;
      assert a in t.rows && t.rows[a].binding.Some? && SideOf(t.rows[a]) == side;
    }
  }

  /** A write of the whole row that no rule refuses. */
  lemma WriteIsPut(t: Table, id: ItemId, item: Item)
    requires id in t.rows && RowOk(t.rows, id, item) && IsUnique(t.rows, id, item) && NameOk(item)
    requires item.isExecutable == t.rows[id].isExecutable
    ensures WriteItem(t, id, item) == Ok(Put(t, id, item))
  {
  }

  lemma TakeOverWrites(t: Table, taker: ItemId, giver: ItemId)
    requires RowsOk(t.rows) && RowsUnique(t.rows) && CanTakeOver(t.rows, taker, giver) && taker != ROOT && giver != ROOT
    requires NameOk(t.rows[taker])
    ensures TakeOverBinding(t, taker, giver) == Ok(TakenOver(t, taker, giver))
  {
    var item := WithSideOf(t.rows[taker], t.rows[giver]);
    var deleted := t.(rows := t.rows - {giver});
    FileIsNoParent(t.rows, giver);
    assert DeleteItem(t, giver) == Ok(deleted);
    TakingRow(t.rows, taker, giver);
    WriteIsPut(deleted, taker, item);
    SeenIsWrittenToo(deleted, taker, item, t.rows[giver].seenInFullListing);
  }

  lemma SeenIsWrittenToo(t: Table, id: ItemId, item: Item, seen: nat)
    ensures var written := Put(t, id, item);
            written.(rows := written.rows[id := written.rows[id].(seenInFullListing := seen)]) == Put(t, id, item.(seenInFullListing := seen))
  {
  }

  /** The binding, OneDrive's version and what was agreed on move whole to the taking file. */
  lemma TakeOverKeeps(t: Table, taker: ItemId, giver: ItemId)
    requires Valid(t) && CanTakeOver(t.rows, taker, giver)
    ensures TakeOverBinding(t, taker, giver) == Ok(TakenOver(t, taker, giver))
    ensures var u := TakenOver(t, taker, giver);
            Valid(u) && Follows(t, u) && ParentsOf(u.rows) == ParentsOf(t.rows)
  {
    assert RowOk(t.rows, ROOT, t.rows[ROOT]);
    assert NameOk(t.rows[taker]);
    hide Follows, TakeOverBinding, RowOk, RowsOk, RowsUnique, IsTree, StampsOk;
    TakeOverWrites(t, taker, giver);
    TakingCore(t, taker, giver);
    TakingFollows(t, taker, giver);
    PutKeepsNames(t.(rows := t.rows - {giver}), taker, Taking(t.rows[taker], t.rows[giver]));
  }

  lemma TakingFollows(t: Table, taker: ItemId, giver: ItemId)
    requires CanTakeOver(t.rows, taker, giver)
    ensures Follows(t, TakenOver(t, taker, giver))
  {
    TakingSides(t, taker, giver);
    hide OneDriveSides;
  }

  lemma TakingCore(t: Table, taker: ItemId, giver: ItemId)
    requires Core(t) && CanTakeOver(t.rows, taker, giver) && giver != ROOT
    ensures Core(TakenOver(t, taker, giver))
    ensures ParentsOf(TakenOver(t, taker, giver).rows) == ParentsOf(t.rows)
  {
    var item := Taking(t.rows[taker], t.rows[giver]);
    var deleted := t.(rows := t.rows - {giver});
    FileIsNoParent(t.rows, giver);
    DeleteKeepsCore(t, giver);
    TakingRow(t.rows, taker, giver);
    ParentsOfTaken(t.rows, taker, giver, item);
    PutKeepsCore(deleted, taker, item);
    ParentsIgnoreStamps(deleted.rows, taker, item, NextStamp(deleted, taker, item));
  }

  lemma ParentsOfTaken(rows: Rows, taker: ItemId, giver: ItemId, item: Item)
    requires taker in rows && giver in rows && taker != giver
    requires rows[giver].localPlace.None? && item.localPlace == rows[taker].localPlace
    ensures ParentsOf((rows - {giver})[taker := item]) == ParentsOf(rows)
  {
  }

  // ---------------------------------------------------------------- each change

  lemma CanHoldIsChecked(rows: Rows, directory: ItemId, item: ItemId)
    ensures CheckCanHold(rows, directory, item).Pass? <==> CanHold(ParentsOf(rows), directory, item)
    ensures CheckCanHold(rows, directory, item).Fail? ==> CheckCanHold(rows, directory, item).error.Refused?
  {
  }

  lemma ShownIsInTree(rows: Rows, id: ItemId)
    requires Shown(rows, id)
    ensures id in ParentsOf(rows) || id == ROOT
  {
  }

  lemma MoveItemKeeps(t: Table, item: ItemId, place: ItemPlace, isNameIgnored: bool)
    requires Valid(t)
    ensures Keeps(t, MoveItem(t, item, place, isNameIgnored))
  {
    hide CheckCanHold, Follows, RowOk, RowsUnique, IsTree, StampsOk;
    CanHoldIsChecked(t.rows, place.parent, item);
    if FindPlaced(t.rows, item).Ok? && CheckDirectory(t.rows, place.parent).Pass? && CheckCanHold(t.rows, place.parent, item).Pass?
       && CheckPlaceIsFree(t.rows, place).Pass? && IsEntryName(place.name)
    {
      ShownIsInTree(t.rows, place.parent);
      MoveKeepsTree(ParentsOf(t.rows), item, place.parent);
      PlaceKeepsCore(t, item, place, isNameIgnored);
      PutKeepsNames(t, item, AtPlace(t.rows[item], place, isNameIgnored));
    }
  }

  lemma RemoveKeeps(t: Table, id: ItemId)
    requires Valid(t)
    ensures Keeps(t, Remove(t, id))
  {
    hide RemoveLocalVersion, WithoutLocal, Follows, Core, Valid;
    if FindPlaced(t.rows, id).Ok? && CheckEmpty(t.rows, id).Pass? {
      RemoveLocalVersionKeeps(t, id);
    }
  }

  lemma ContentRow(rows: Rows, id: ItemId, content: ContentVersion, beforeWrite: Option<ContentVersion>)
    requires id in rows && RowOk(rows, id, rows[id]) && IsUnique(rows, id, rows[id]) && rows[id].localContent.Some?
    ensures var item := rows[id].(localContent := Some(content), contentBeforeWrite := beforeWrite);
            RowOk(rows, id, item) && IsUnique(rows, id, item) && SchemaAllows(rows, id, item)
  {
  }

  lemma ChangeContentKeeps(t: Table, id: ItemId, content: ContentVersion, beforeWrite: Option<ContentVersion>)
    requires Valid(t)
    ensures Keeps(t, ChangeContent(t, id, content, beforeWrite))
  {
    hide RowOk, IsUnique, NameOk, Valid, Follows, WriteItem, SchemaAllows;
    if !Shown(t.rows, id) {
      FollowsItself(t);
    } else if t.rows[id].kind.File? && t.rows[id].localContent.Some? {
      var item := t.rows[id].(localContent := Some(content), contentBeforeWrite := beforeWrite);
      RowIsOk(t, id);
      ContentRow(t.rows, id, content, beforeWrite);
      WriteIsPut(t, id, item);
      RewriteKeeps(t, id, item);
    }
  }

  lemma FollowsItself(t: Table)
    ensures Follows(t, t)
  {
  }

  lemma RowIsOk(t: Table, id: ItemId)
    requires Valid(t) && id in t.rows
    ensures RowOk(t.rows, id, t.rows[id]) && IsUnique(t.rows, id, t.rows[id]) && NameOk(t.rows[id])
    ensures t.rows[id].localContent.Some? ==> t.rows[id].localPlace.Some?
    ensures forall content, before :: NameOk(t.rows[id].(localContent := content, contentBeforeWrite := before))
  {
  }

  /** A row is written that keeps its place and all that is OneDrive's of it. */
  lemma RewriteKeeps(t: Table, id: ItemId, item: Item)
    requires Valid(t) && id in t.rows && RowOk(t.rows, id, item) && IsUnique(t.rows, id, item)
    requires item.localPlace == t.rows[id].localPlace && item.kind == t.rows[id].kind && item.binding == t.rows[id].binding
    requires item.binding.Some? ==> SideOf(item) == SideOf(t.rows[id])
    requires item.localPlace.Some?
    ensures Valid(Put(t, id, item)) && Follows(t, Put(t, id, item))
  {
    assert NameOk(t.rows[id]);
    ParentsOfSamePlace(t.rows, id, item);
    PutKeepsCore(t, id, item);
    PutFollows(t, id, item);
    PutKeepsNames(t, id, item);
  }

  lemma ParentsOfSamePlace(rows: Rows, id: ItemId, item: Item)
    requires id in rows && item.localPlace == rows[id].localPlace
    ensures ParentsOf(rows[id := item]) == ParentsOf(rows)
  {
  }
}
