/**
  The schema told of whole tables: what is checked of the one row that a statement writes or
  deletes is enough for every row of the table, and not more than that.
*/
module ItemSchema {
  import opened Wrappers
  import opened ItemTree
  import opened ItemTable

  /** The place is not in the item itself, and in the row of a directory. */
  ghost predicate IsInDirectory(rows: Rows, id: ItemId, place: Option<ItemPlace>) {
    place.Some? ==> place.value.parent != id && place.value.parent in rows && rows[place.value.parent].kind.Directory?
  }

  /** A row in its columns, and the rows its places name. */
  ghost predicate Meets(rows: Rows, id: ItemId)
    requires id in rows
  {
    var item := rows[id];
    && (item.binding.Some? ==> item.binding.value.driveId != "" && item.binding.value.itemId != "")
    && (item.binding.None? ==> item.syncedPlace.None? && item.syncedContent.None? && item.onedrivePlace.None? && item.onedriveContent.None?)
    && (item.binding.None? ==> item.onedriveEtag.None? && item.onedriveMime.None?)
    && (item.onedriveMime.Some? ==> item.onedriveContent.Some?)
    && (id == ItemId(1) ==> item.kind.Directory? && item.localPlace.None? && item.onedrivePlace.None? && item.syncedPlace.None?)
    && IsInDirectory(rows, id, item.localPlace) && IsInDirectory(rows, id, item.onedrivePlace) && IsInDirectory(rows, id, item.syncedPlace)
    && (item.localContent.Some? <==> item.kind.File? && item.localPlace.Some?)
    && (item.onedriveContent.Some? <==> item.kind.File? && item.onedrivePlace.Some?)
    && (item.onedriveContent.Some? ==> item.onedriveContent.value.Hashed?)
    && (item.syncedContent.Some? ==> item.kind.File?)
    && (item.contentPresence.OnDisk? || item.contentBeforeWrite.Some? ==> item.kind.File? && item.localPlace.Some?)
  }

  /** Every row meets the schema, and no two share a place here or a binding. */
  ghost predicate AllMeet(rows: Rows) {
    && (forall id <- rows :: Meets(rows, id))
    && (forall a <- rows, b <- rows :: a != b && rows[a].localPlace.Some? ==> rows[a].localPlace != rows[b].localPlace)
    && (forall a <- rows, b <- rows :: a != b && rows[a].binding.Some? ==> rows[a].binding != rows[b].binding)
  }

  /** A row written, of the kind it had, passes the checks of the schema exactly when every row of the table meets it then. */
  lemma WriteIsAllowedIff(rows: Rows, id: ItemId, item: Item)
    requires AllMeet(rows) && (id in rows ==> rows[id].kind == item.kind)
    ensures SchemaAllows(rows, id, item) <==> AllMeet(rows[id := item])
  {
    var written := rows[id := item];
    if SchemaAllows(rows, id, item) {
      forall other <- written
        ensures Meets(written, other)
      {
        if other != id {
          assert Meets(rows, other);
        }
      }
    }
    if AllMeet(written) {
      assert Meets(written, id);
      forall other <- rows | other != id
        ensures item.localPlace.Some? ==> rows[other].localPlace != item.localPlace
        ensures item.binding.Some? ==> rows[other].binding != item.binding
      {
        assert written[other] == rows[other] && written[id] == item;
      }
    }
  }

  /** A row, not the root's, may be deleted exactly when the rows that stay meet the schema. */
  lemma DeleteIsAllowedIff(t: Table, id: ItemId)
    requires AllMeet(t.rows) && id in t.rows
    ensures DeleteItem(t, id).Ok? <==> id != ItemId(1) && AllMeet(t.rows - {id})
    ensures DeleteItem(t, id).Ok? ==> DeleteItem(t, id).value == t.(rows := t.rows - {id})
  {
    var rows := t.rows - {id};
    if exists other <- t.rows :: NamesAsParent(t.rows[other], id) {
      var other :| other in t.rows && NamesAsParent(t.rows[other], id);
      assert Meets(t.rows, other);
      assert !Meets(rows, other);
    } else {
      forall other <- rows
        ensures Meets(rows, other)
      {
        assert Meets(t.rows, other) && !NamesAsParent(t.rows[other], id);
      }
    }
  }

  /** A name that a file can have. */
  ghost predicate IsName(place: Option<ItemPlace>) {
    place.Some? ==> place.value.name != "" && place.value.name != "." && place.value.name != ".." && '/' !in place.value.name && '\0' !in place.value.name
  }

  /**
    A row is written exactly when there is one, its names are names, its binding is one, and the table
    meets the schema with it. It is the row that was given, but for the stamp and for what has a
    writer of its own; no other row changes, and no id is given.
  */
  lemma WrittenIff(t: Table, id: ItemId, item: Item)
    requires AllMeet(t.rows) && (id in t.rows ==> t.rows[id].kind == item.kind)
    ensures WriteItem(t, id, item).Ok? <==> id in t.rows && IsName(item.localPlace) && IsName(item.syncedPlace) && AllMeet(t.rows[id := item])
    ensures WriteItem(t, id, item) == Err(SchemaRule) ==> !AllMeet(t.rows[id := item])
    ensures WriteItem(t, id, item).Ok? ==>
              && var u := WriteItem(t, id, item).value;
              && u.lastId == t.lastId && u.rows.Keys == t.rows.Keys
              && (forall other <- t.rows :: other != id ==> u.rows[other] == t.rows[other])
              && u.rows[id].(unsentSince := None) == item.(isExecutable := t.rows[id].isExecutable, unsentSince := None)
  {
    WriteIsAllowedIff(t.rows, id, item);
    if AllMeet(t.rows[id := item]) {
      assert Meets(t.rows[id := item], id);
    }
    hide SchemaAllows;
  }

  /** The same of a row that is made, under the next id. */
  lemma InsertedIff(t: Table, kind: ItemKind, binding: Option<Reference>, place: Option<ItemPlace>, content: Option<ContentVersion>, presence: ContentPresence, isNameIgnored: bool)
    requires AllMeet(t.rows) && ItemId(t.lastId + 1) !in t.rows
    ensures var made, id := InsertItem(t, kind, binding, place, content, presence, isNameIgnored), ItemId(t.lastId + 1);
            var row := Item(binding, kind, place, content, None, None, None, None, None, None, presence, None, Placed, isNameIgnored, 0, 0, false, None);
            && (made.Ok? <==> IsName(place) && AllMeet(t.rows[id := row]))
            && (made == Err(SchemaRule) ==> !AllMeet(t.rows[id := row]))
            && (made.Ok? ==>
                  && made.value.id == id && made.value.table.lastId == t.lastId + 1 && made.value.table.rows.Keys == t.rows.Keys + {id}
                  && (forall other <- t.rows :: made.value.table.rows[other] == t.rows[other])
                  && made.value.table.rows[id].(unsentSince := None) == row)
  {
    var id := ItemId(t.lastId + 1);
    var row := NewRow(kind, binding, place, content, presence, isNameIgnored);
    WriteIsAllowedIff(t.rows, id, row);
    if AllMeet(t.rows[id := row]) {
      assert Meets(t.rows[id := row], id);
    }
    hide SchemaAllows;
  }
}
