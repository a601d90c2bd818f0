/**
  The store of items as it works: rows changed in place, statement by statement, inside a
  transaction that is kept whole or dropped whole. Each method is tied to the function of
  the table that the rules are proved of.
*/
module ItemStores {
  import opened Wrappers
  import opened ItemTree
  import opened ItemTable
  import C = ItemChanges
  import P = ItemPaths
  import R = ItemRuns
  import I = ItemInvariant

  /** What a step did to the table is what the function of the table says, or its error. */
  ghost predicate Did(said: Result<Table, Error>, done: Result<ItemId, Error>, now: Table) {
    match said
    case Ok(table) => done.Ok? && now == table
    case Err(e) => done == Err(e)
  }

  ghost predicate DidMake(said: Result<Inserted, Error>, done: Result<ItemId, Error>, now: Table) {
    match said
    case Ok(made) => done == Ok(made.id) && now == made.table
    case Err(e) => done == Err(e)
  }

  function Prefixed(s: seq<ItemId>, rest: Option<seq<ItemId>>): Option<seq<ItemId>> {
    if rest.None? then None else Some(s + rest.value)
  }

  function Reversed(names: P.Path): P.Path {
    if names == [] then [] else Reversed(names[1..]) + [names[0]]
  }

  function Below(above: Result<Option<P.Path>, Error>, names: P.Path): Result<Option<P.Path>, Error> {
    if above.Ok? && above.value.Some? then Ok(Some(above.value.value + Reversed(names))) else above
  }

  lemma {:induction false} ReversedPush(names: P.Path, name: Name)
    ensures Reversed(names + [name]) == [name] + Reversed(names)
    decreases |names|
  {
    if names == [] {
      assert [] + [name] == [name];
    } else {
      ReversedPush(names[1..], name);
      assert (names + [name])[1..] == names[1..] + [name];
    }
  }

  class ItemStore {
    var rows: Rows
    var lastId: int
    var lastUnsentSince: nat

    ghost function State(): Table
      reads this
    {
      Table(rows, lastId, lastUnsentSince)
    }

    constructor ()
      ensures State() == C.NEW_STORE && Valid(State())
    {
      rows := map[ROOT := NewRow(Directory, None, None, None, NotOnDisk, false)];
      lastId, lastUnsentSince := 1, 0;
      new;
      R.NewStoreIsValid();
    }

    // -------------------------------------------------------------- the statements

    /** The row is written with the stamp it had, and then the triggers run. */
    method WriteRow(id: ItemId, item: Item)
      modifies this
      ensures State() == Put(old(State()), id, item)
    {
      var stamp := if id in rows then rows[id].unsentSince else None;
      rows := rows[id := item.(unsentSince := stamp)];
      if stamp.None? && Unsent(item) {
        lastUnsentSince := lastUnsentSince + 1;
        rows := rows[id := rows[id].(unsentSince := Some(lastUnsentSince))];
      }
      if stamp.Some? && !Unsent(item) {
        rows := rows[id := rows[id].(unsentSince := None)];
      }
    }

    method Insert(kind: ItemKind, place: ItemPlace, content: Option<ContentVersion>, presence: ContentPresence, isNameIgnored: bool) returns (done: Result<ItemId, Error>)
      modifies this
      ensures DidMake(InsertItem(old(State()), kind, None, Some(place), content, presence, isNameIgnored), done, State())
    {
      var id := ItemId(lastId + 1);
      var item := NewRow(kind, None, Some(place), content, presence, isNameIgnored);
      if !IsEntryName(place.name) {
        return Err(Refused(AnotherRule));
      }
      if !SchemaAllows(rows, id, item) {
        return Err(SchemaRule);
      }
      lastId := lastId + 1;
      WriteRow(id, item);
      return Ok(id);
    }

    method Write(id: ItemId, item: Item) returns (done: Result<ItemId, Error>)
      modifies this
      ensures Did(WriteItem(old(State()), id, item), done, State())
    {
      var said := WriteItem(Table(rows, lastId, lastUnsentSince), id, item);
      if said.Err? {
        return Err(said.error);
      }
      WriteRow(id, item.(isExecutable := rows[id].isExecutable));
      return Ok(id);
    }

    method SetPlace(id: ItemId, place: ItemPlace, isNameIgnored: bool) returns (done: Result<ItemId, Error>)
      modifies this
      ensures Did(WriteLocalPlace(old(State()), id, place, isNameIgnored), done, State())
    {
      if id !in rows {
        return Ok(id);
      }
      var item := rows[id].(localPlace := Some(place), isNameIgnored := isNameIgnored);
      if !SchemaAllows(rows, id, item) {
        return Err(SchemaRule);
      }
      WriteRow(id, item);
      return Ok(id);
    }

    method SetNamedPlace(id: ItemId, place: ItemPlace, isNameIgnored: bool) returns (done: Result<ItemId, Error>)
      modifies this
      ensures Did(SetLocalPlace(old(State()), id, place, isNameIgnored), done, State())
    {
      if !IsEntryName(place.name) {
        return Err(Refused(AnotherRule));
      }
      done := SetPlace(id, place, isNameIgnored);
    }

    method Delete(id: ItemId) returns (done: Result<ItemId, Error>)
      modifies this
      ensures Did(DeleteItem(old(State()), id), done, State())
    {
      if id in rows {
        if id == ROOT || exists other <- rows :: NamesAsParent(rows[other], id) {
          return Err(SchemaRule);
        }
        rows := rows - {id};
      }
      return Ok(id);
    }

    // -------------------------------------------------------------- the walks

    /** From a directory up to the root, row by row. */
    method ListUp(directory: ItemId) returns (done: Result<seq<ItemId>, Error>)
      ensures done == C.ListDirectoriesUp(rows, directory)
    {
      var directories: seq<ItemId>, at := [], Some(directory);
      ghost var p := ParentsOf(rows);
      assert forall rest: seq<ItemId> :: [] + rest == rest;
      while at.Some?
        invariant |directories| <= MAX_CHAIN + 1
        invariant at.Some? ==> Up(p, directory, MAX_CHAIN + 1) == Prefixed(directories, Up(p, at.value, MAX_CHAIN + 1 - |directories|))
        invariant at.None? ==> Up(p, directory, MAX_CHAIN + 1) == Some(directories)
        decreases MAX_CHAIN + 1 - |directories|, at.Some?
      {
        if |directories| > MAX_CHAIN {
          return Err(Refused(AnotherRule));
        }
        var here := at.value;
        assert Up(p, here, MAX_CHAIN + 1 - |directories|) ==
               if here !in p then Some([here]) else Prefixed([here], Up(p, p[here], MAX_CHAIN - |directories|));
        ghost var before := directories;
        directories := directories + [here];
        assert forall rest: seq<ItemId> :: before + ([here] + rest) == directories + rest;
        at := if here in rows && rows[here].localPlace.Some? then Some(rows[here].localPlace.value.parent) else None;
      }
      return Ok(directories);
    }

    /** The names of an item and of the directories above it, from the item up, turned round at the root. */
    method FindPath(id: ItemId) returns (done: Result<Option<P.Path>, Error>)
      ensures done == P.FindPath(rows, id)
    {
      var names: P.Path, at := [], id;
      assert forall above: P.Path :: above + [] == above && [] + above == above;
      for n := 0 to MAX_CHAIN + 1
        invariant P.FindPath(rows, id) == Below(P.NamesUp(rows, at, MAX_CHAIN + 1 - n), names)
      {
        if at !in rows || (rows[at].localPlace.None? && at != ROOT) {
          return Ok(None);
        }
        if rows[at].localPlace.None? {
          assert [] + Reversed(names) == Reversed(names);
          return Ok(Some(Reversed(names)));
        }
        var place := rows[at].localPlace.value;
        ReversedPush(names, place.name);
        assert forall above: P.Path :: (above + [place.name]) + Reversed(names) == above + Reversed(names + [place.name]);
        names := names + [place.name];
        at := place.parent;
      }
      return Err(Refused(AnotherRule));
    }

    // -------------------------------------------------------------- the changes

    method CheckCanHold(directory: ItemId, item: ItemId) returns (done: Outcome<Error>)
      ensures done == C.CheckCanHold(rows, directory, item)
    {
      var directories := ListUp(directory);
      if directories.Err? {
        return Fail(directories.error);
      }
      if item in directories.value {
        return C.Refuse(AnotherRule);
      }
      return C.CheckDepth(directories.value, LevelsBelow(ParentsOf(rows), {item}, MAX_CHAIN + 1));
    }

    method RemoveLocal(id: ItemId) returns (done: Result<ItemId, Error>)
      requires id in rows
      modifies this
      ensures Did(C.RemoveLocalVersion(old(State()), id), done, State())
    {
      if rows[id].binding.Some? {
        done := Write(id, C.Hidden(rows[id]));
      } else if exists c <- rows :: rows[c].syncedPlace.Some? && rows[c].syncedPlace.value.parent == id {
        done := Err(Refused(AnotherRule));
      } else {
        done := Delete(id);
      }
    }

    method TakeOver(replacing: ItemId, replaced: ItemId) returns (done: Result<ItemId, Error>)
      modifies this
      ensures Did(C.TakeOverBinding(old(State()), replacing, replaced), done, State())
    {
      if replacing == replaced || replacing == ROOT || replaced == ROOT || replacing !in rows || replaced !in rows {
        return Err(Refused(AnotherRule));
      }
      var taker, giver := rows[replacing], rows[replaced];
      if taker.binding.Some? || taker.localPlace.None? || giver.binding.None? || giver.localPlace.Some? || giver.kind.Directory? || taker.kind.Directory? {
        return Err(Refused(AnotherRule));
      }
      if !C.HoldsNothing(rows, replaced) {
        return Err(Refused(DirectoryNotEmpty));
      }
      if exists c <- rows :: NamesAsParent(rows[c], replaced) {
        return Err(SchemaRule);
      }
      // The giver is deleted first: a binding is in one row at a time.
      var deleted := Delete(replaced);
      assert deleted.Ok?;
      var _ :- Write(replacing, C.WithSideOf(taker, giver));
      rows := rows[replacing := rows[replacing].(seenInFullListing := giver.seenInFullListing)];
      return Ok(replacing);
    }

    method Make(kind: ItemKind, place: ItemPlace, content: Option<ContentVersion>, isNameIgnored: bool, replaced: Option<ItemId>) returns (done: Result<ItemId, Error>)
      modifies this
      ensures DidMake(C.Make(old(State()), kind, place, content, isNameIgnored, replaced), done, State())
    {
      hide InsertItem, C.TakeOverBinding, Up;
      if kind.File? != content.Some? {
        return Err(Refused(AnotherRule));
      }
      :- C.CheckDirectory(rows, place.parent);
      var directories :- ListUp(place.parent);
      :- C.CheckDepth(directories, 0);
      :- C.CheckPlaceIsFree(rows, place);
      :- C.CheckAnyReplaced(rows, kind, replaced);
      // A new file is on disk here: a program wrote it.
      var made :- Insert(kind, place, content, if kind.File? then OnDisk else NotOnDisk, isNameIgnored);
      if replaced.Some? {
        var _ :- TakeOver(made, replaced.value);
      }
      return Ok(made);
    }

    method Move(item: ItemId, place: ItemPlace, isNameIgnored: bool) returns (done: Result<ItemId, Error>)
      modifies this
      ensures Did(C.MoveItem(old(State()), item, place, isNameIgnored), done, State())
    {
      hide SetLocalPlace, C.CheckCanHold;
      var _ :- C.FindPlaced(rows, item);
      :- C.CheckDirectory(rows, place.parent);
      var held := CheckCanHold(place.parent, item);
      :- held;
      :- C.CheckPlaceIsFree(rows, place);
      done := SetNamedPlace(item, place, isNameIgnored);
    }

    method SaveOver(replacing: ItemId, replaced: ItemId) returns (done: Result<ItemId, Error>)
      modifies this
      ensures Did(C.SaveOver(old(State()), replacing, replaced), done, State())
    {
      hide SetLocalPlace, C.CheckCanHold, C.RemoveLocalVersion, C.TakeOverBinding;
      if replacing == replaced {
        return Err(Refused(AnotherRule));
      }
      var _ :- C.FindPlaced(rows, replacing);
      var place :- C.FindPlaced(rows, replaced);
      if rows[replacing].kind != rows[replaced].kind {
        return Err(Refused(AnotherRule));
      }
      :- C.CheckEmpty(rows, replaced);
      var held := CheckCanHold(place.parent, replacing);
      :- held;
      var isNameIgnored, takesOver := rows[replaced].isNameIgnored, C.TakesOver(rows, replacing, replaced);
      // First the replaced file is hidden, as the giver of a binding has to be.
      var _ :- RemoveLocal(replaced);
      if takesOver {
        var _ :- TakeOver(replacing, replaced);
      }
      done := SetNamedPlace(replacing, place, isNameIgnored);
    }

    method Remove(id: ItemId) returns (done: Result<ItemId, Error>)
      modifies this
      ensures Did(C.Remove(old(State()), id), done, State())
    {
      hide C.RemoveLocalVersion;
      var _ :- C.FindPlaced(rows, id);
      :- C.CheckEmpty(rows, id);
      done := RemoveLocal(id);
    }

    method ChangeContent(id: ItemId, content: ContentVersion, beforeWrite: Option<ContentVersion>) returns (done: Result<ItemId, Error>)
      modifies this
      ensures Did(C.ChangeContent(old(State()), id, content, beforeWrite), done, State())
    {
      hide WriteItem;
      if !Shown(rows, id) {
        return Ok(id);
      }
      if rows[id].kind.Directory? || rows[id].localContent.None? {
        return Err(Refused(AnotherRule));
      }
      done := Write(id, rows[id].(localContent := Some(content), contentBeforeWrite := beforeWrite));
    }

    method ExchangePlaces(first: ItemId, second: ItemId) returns (done: Result<ItemId, Error>)
      modifies this
      ensures Did(C.ExchangeLocalPlaces(old(State()), first, second), done, State())
    {
      hide SetLocalPlace, WriteLocalPlace, C.CheckCanHold;
      if first == second {
        return Err(Refused(AnotherRule));
      }
      var firstPlace :- C.FindPlaced(rows, first);
      var secondPlace :- C.FindPlaced(rows, second);
      var firstHeld := CheckCanHold(secondPlace.parent, first);
      :- firstHeld;
      var secondHeld := CheckCanHold(firstPlace.parent, second);
      :- secondHeld;
      var firstIgnored, secondIgnored := rows[first].isNameIgnored, rows[second].isNameIgnored;
      var _ :- SetPlace(first, firstPlace.(name := ASIDE), firstIgnored);
      var _ :- SetNamedPlace(second, firstPlace, firstIgnored);
      done := SetNamedPlace(first, secondPlace, secondIgnored);
    }

    method ApplyChange(change: C.LocalVersionChange) returns (done: Result<ItemId, Error>)
      modifies this
      ensures DidMake(C.ApplyChange(old(State()), change), done, State())
    {
      hide C.Make, C.MoveItem, C.SaveOver, C.Remove, C.ChangeContent;
      match change
      case Made(kind, place, content, isNameIgnored, replaced) => done := Make(kind, place, content, isNameIgnored, replaced);
      case Moved(item, place, isNameIgnored) =>
        var _ :- Move(item, place, isNameIgnored);
        done := Ok(item);
      case SavedOver(replacing, saved) =>
        var _ :- SaveOver(replacing, saved);
        done := Ok(replacing);
      case Removed(item) =>
        var _ :- Remove(item);
        done := Ok(item);
      case OpenedForWriting(item) =>
        // The version counts as changed at once; of several writers the first keeps what was there.
        var content := C.ContentOf(rows, item);
        var changed := ChangedHere(content.size, content.mtime, content.mtimeNsec, content.ChangeCount() + 1);
        var _ :- ChangeContent(item, changed, Some(C.BeforeWriteOr(rows, item, content)));
        done := Ok(item);
      case ClosedChanged(item, size, mtime, mtimeNsec) =>
        var count := C.ContentOf(rows, item).ChangeCount();
        var _ :- ChangeContent(item, ChangedHere(size, mtime, mtimeNsec, if count < 1 then 1 else count), None);
        done := Ok(item);
      case ClosedUnchanged(item) =>
        var _ :- ChangeContent(item, C.BeforeWriteOr(rows, item, C.ContentOf(rows, item)), None);
        done := Ok(item);
      case Truncated(item, size, mtime, mtimeNsec) =>
        var _ :- ChangeContent(item, ChangedHere(size, mtime, mtimeNsec, C.ContentOf(rows, item).ChangeCount() + 1), None);
        done := Ok(item);
    }

    // -------------------------------------------------------------- the transactions

    method ApplyAll(changes: seq<C.LocalVersionChange>) returns (done: Result<ItemId, Error>)
      modifies this
      ensures Did(C.ApplyAll(old(State()), changes), done, State())
    {
      hide C.ApplyChange;
      done := Ok(ROOT);
      for i := 0 to |changes|
        invariant C.ApplyAll(old(State()), changes) == C.ApplyAll(State(), changes[i..])
        invariant done.Ok?
      {
        assert changes[i..][0] == changes[i] && changes[i..][1..] == changes[i + 1..];
        var about :- ApplyChange(changes[i]);
        done := Ok(about);
      }
    }

    /** One operation in a transaction of its own: on an error the rows are as they were. */
    method Transact(operation: C.Operation) returns (done: Result<ItemId, Error>)
      requires Valid(State())
      modifies this
      ensures State() == C.Step(old(State()), operation)
      ensures Valid(State()) && I.Follows(old(State()), State())
      ensures done.Err? ==> done.error.Refused? && State() == old(State())
      ensures done.Err? <==> C.Attempt(old(State()), operation).Err?
    {
      hide Valid, I.Follows, C.ApplyAll, C.ExchangeLocalPlaces;
      var savedRows, savedId, savedStamp := rows, lastId, lastUnsentSince;
      R.StepKeeps(State(), operation);
      match operation {
        case Apply(changes) => done := ApplyAll(changes);
        case Exchange(first, second) => done := ExchangePlaces(first, second);
      }
      if done.Err? {
        rows, lastId, lastUnsentSince := savedRows, savedId, savedStamp;
      }
    }
  }
}
