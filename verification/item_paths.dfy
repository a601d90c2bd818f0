/** Paths and ids: where the folder shows an item, and what it shows at a path. */
module ItemPaths {
  import opened Wrappers
  import opened ItemTree
  import opened ItemTable
  import opened ItemInvariant

  type Path = seq<Name>

  /** The names from the root down to `at`, looking at `fuel` rows; nothing when `at` is not shown. */
  function NamesUp(rows: Rows, at: ItemId, fuel: nat): Result<Option<Path>, Error>
    decreases fuel
  {
    if fuel == 0 then Err(Refused(AnotherRule))
    else if !Shown(rows, at) then Ok(None)
    else if rows[at].localPlace.None? then Ok(Some([]))
    else
      var place := rows[at].localPlace.value;
      var above :- NamesUp(rows, place.parent, fuel - 1);
      match above
      case None => Ok(None)
      case Some(names) => Ok(Some(names + [place.name]))
  }

  function FindPath(rows: Rows, id: ItemId): Result<Option<Path>, Error> {
    NamesUp(rows, id, MAX_CHAIN + 1)
  }

  /** Who stands under `name` in `directory`, if anybody does. */
  ghost function FindItemAt(rows: Rows, directory: ItemId, name: Name): Option<ItemId> {
    if id :| id in rows && rows[id].localPlace == Some(ItemPlace(directory, name)) then Some(id) else None
  }

  /** The names looked up one by one, from `directory` down. */
  ghost function LookUp(rows: Rows, directory: ItemId, names: Path): Option<ItemId>
    decreases |names|
  {
    if names == [] then Some(directory)
    else
      match LookUp(rows, directory, names[..|names| - 1])
      case None => None
      case Some(above) => FindItemAt(rows, above, names[|names| - 1])
  }

  lemma FindItemAtFinds(t: Table, id: ItemId)
    requires Core(t) && id in t.rows && t.rows[id].localPlace.Some?
    ensures FindItemAt(t.rows, t.rows[id].localPlace.value.parent, t.rows[id].localPlace.value.name) == Some(id)
  {
  }

  /** The path of `id`, found looking at `fuel` rows, leads back to it. */
  ghost predicate LeadsBack(rows: Rows, id: ItemId, fuel: nat) {
    && NamesUp(rows, id, fuel).Ok? && NamesUp(rows, id, fuel).value.Some?
    && LookUp(rows, ROOT, NamesUp(rows, id, fuel).value.value) == Some(id)
  }

  /** The walk of the names goes as far as the walk up. */
  lemma {:induction false} NamesOfChain(t: Table, s: seq<ItemId>, fuel: nat)
    requires Core(t) && IsChain(ParentsOf(t.rows), s) && |s| > 0 && Shown(t.rows, s[0]) && |s| <= fuel
    ensures LeadsBack(t.rows, s[0], fuel)
    decreases |s|
  {
    hide *;
    ShownRow(t.rows, s[0]);
    if t.rows[s[0]].localPlace.Some? {
      PlacedInShown(t, s);
      FindItemAtFinds(t, s[0]);
      var above := s[1..];
      assert above[0] == s[1] && |above| == |s| - 1;
      NamesOfChain(t, above, fuel - 1);
      OneNameMore(t.rows, s[0], s[1], fuel);
    } else {
      NamesOfRoot(t.rows, s[0], fuel);
    }
  }

  lemma ShownRow(rows: Rows, id: ItemId)
    requires Shown(rows, id)
    ensures id in rows && (rows[id].localPlace.None? ==> id == ROOT)
  {
  }

  lemma NamesOfRoot(rows: Rows, id: ItemId, fuel: nat)
    requires fuel > 0 && id == ROOT && Shown(rows, id) && rows[id].localPlace.None?
    ensures LeadsBack(rows, id, fuel)
  {
  }

  lemma OneNameMore(rows: Rows, id: ItemId, parent: ItemId, fuel: nat)
    requires fuel > 0 && id in rows && rows[id].localPlace.Some? && rows[id].localPlace.value.parent == parent
    requires FindItemAt(rows, parent, rows[id].localPlace.value.name) == Some(id)
    requires LeadsBack(rows, parent, fuel - 1)
    ensures LeadsBack(rows, id, fuel)
  {
  }

  lemma PlacedInShown(t: Table, s: seq<ItemId>)
    requires Core(t) && IsChain(ParentsOf(t.rows), s) && s[0] in t.rows && t.rows[s[0]].localPlace.Some?
    ensures |s| > 1 && s[1] == t.rows[s[0]].localPlace.value.parent && Shown(t.rows, s[1]) && IsChain(ParentsOf(t.rows), s[1..])
  {
  }

  /**
    Of every item the folder shows: its path is never refused, and its names looked up one
    by one from the root give the item. Of any other id there is no path, and no refusal.
  */
  lemma PathLeadsBack(t: Table, id: ItemId)
    requires Valid(t)
    ensures Shown(t.rows, id) ==>
              && FindPath(t.rows, id).Ok? && FindPath(t.rows, id).value.Some?
              && LookUp(t.rows, ROOT, FindPath(t.rows, id).value.value) == Some(id)
    ensures !Shown(t.rows, id) ==> FindPath(t.rows, id) == Ok(None)
  {
    if Shown(t.rows, id) {
      ShownIsInTree(t.rows, id);
      WalkUpOfTree(ParentsOf(t.rows), id);
      NamesOfChain(t, WalkUp(ParentsOf(t.rows), id), MAX_CHAIN + 1);
    }
  }

  /** What is found at a path is shown, and has that path: the other way round. */
  lemma {:induction false} FoundHasPath(t: Table, names: Path, fuel: nat)
    requires Valid(t) && LookUp(t.rows, ROOT, names).Some? && |names| < fuel
    ensures HasPath(t.rows, LookUp(t.rows, ROOT, names), names, fuel)
    decreases |names|
  {
    hide *;
    if names == [] {
      RootHasPath(t, fuel);
    } else {
      var above := names[..|names| - 1];
      LookUpStep(t.rows, names);
      FoundHasPath(t, above, fuel - 1);
      PathStep(t.rows, names, fuel);
    }
  }

  ghost predicate HasPath(rows: Rows, id: Option<ItemId>, names: Path, fuel: nat) {
    id.Some? && Shown(rows, id.value) && NamesUp(rows, id.value, fuel) == Ok(Some(names))
  }

  lemma RootHasPath(t: Table, fuel: nat)
    requires Valid(t) && fuel > 0
    ensures HasPath(t.rows, LookUp(t.rows, ROOT, []), [], fuel)
  {
  }

  lemma LookUpStep(rows: Rows, names: Path)
    requires names != [] && LookUp(rows, ROOT, names).Some?
    ensures LookUp(rows, ROOT, names[..|names| - 1]).Some?
  {
  }

  lemma PathStep(rows: Rows, names: Path, fuel: nat)
    requires names != [] && fuel > 0 && LookUp(rows, ROOT, names).Some?
    requires HasPath(rows, LookUp(rows, ROOT, names[..|names| - 1]), names[..|names| - 1], fuel - 1)
    ensures HasPath(rows, LookUp(rows, ROOT, names), names, fuel)
  {
    assert names[..|names| - 1] + [names[|names| - 1]] == names;
  }

  lemma {:induction false} MoreFuelSamePath(rows: Rows, id: ItemId, fuel: nat, more: nat)
    requires fuel <= more && NamesUp(rows, id, fuel).Ok?
    ensures NamesUp(rows, id, more) == NamesUp(rows, id, fuel)
    decreases fuel
  {
    if Shown(rows, id) && rows[id].localPlace.Some? {
      MoreFuelSamePath(rows, rows[id].localPlace.value.parent, fuel - 1, more - 1);
    }
  }

  /** A path and the item shown at it are each other's, in every valid table. */
  lemma PathsAndItemsAreOne(t: Table, id: ItemId, names: Path)
    requires Valid(t)
    ensures FindPath(t.rows, id) == Ok(Some(names)) <==> LookUp(t.rows, ROOT, names) == Some(id)
  {
    PathLeadsBack(t, id);
    if LookUp(t.rows, ROOT, names) == Some(id) {
      FoundHasPath(t, names, |names| + MAX_CHAIN + 2);
      MoreFuelSamePath(t.rows, id, MAX_CHAIN + 1, |names| + MAX_CHAIN + 2);
    }
  }
}
