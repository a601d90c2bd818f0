/** Reading what is unsent page by page, in the order in which each row came to be unsent. */
module ItemUnsent {
  import opened Wrappers
  import opened ItemTree
  import opened ItemTable

  /** The rules ignore the name of a directory above the item that OneDrive does not have. */
  predicate IsBelowIgnored(rows: Rows, id: ItemId) {
    match Up(ParentsOf(rows), id, MAX_CHAIN + 1)
    case None => false
    case Some(s) => exists i :: 0 < i < |s| && s[i] in rows && rows[s[i]].binding.None? && rows[s[i]].isNameIgnored
  }

  /** An unbound item that stays here: its own name is ignored, or an unbound directory above it has a name that is. */
  predicate IsLeftHere(rows: Rows, id: ItemId) {
    id in rows && rows[id].binding.None? && (rows[id].isNameIgnored || IsBelowIgnored(rows, id))
  }

  /** What the index of unsent rows holds of `id`. */
  predicate IsListed(t: Table, id: ItemId) {
    id in t.rows && t.rows[id].unsentSince.Some? && !IsLeftHere(t.rows, id)
  }

  function StampOf(t: Table, id: ItemId): nat {
    if id in t.rows && t.rows[id].unsentSince.Some? then t.rows[id].unsentSince.value else 0
  }

  ghost function ListedAfter(t: Table, after: nat): set<ItemId> {
    set id | id in t.rows && IsListed(t, id) && StampOf(t, id) > after
  }

  lemma {:induction false} SoonestExists(t: Table, rest: set<ItemId>) returns (id: ItemId)
    requires rest != {}
    ensures id in rest && forall other <- rest :: StampOf(t, id) <= StampOf(t, other)
    decreases rest
  {
    id :| id in rest;
    if rest - {id} != {} {
      var next := SoonestExists(t, rest - {id});
      if StampOf(t, next) < StampOf(t, id) {
        id := next;
      }
    }
  }

  /** The listed row with the least stamp after `after`. */
  ghost function Next(t: Table, after: nat): (next: Option<ItemId>)
    ensures next.Some? ==> next.value in ListedAfter(t, after) && forall other <- ListedAfter(t, after) :: StampOf(t, next.value) <= StampOf(t, other)
    ensures next.None? ==> ListedAfter(t, after) == {}
  {
    if ListedAfter(t, after) == {} then None
    else
      assert exists id :: id in ListedAfter(t, after) && forall other <- ListedAfter(t, after) :: StampOf(t, id) <= StampOf(t, other) by {
        var id := SoonestExists(t, ListedAfter(t, after));
      }
      var id :| id in ListedAfter(t, after) && forall other <- ListedAfter(t, after) :: StampOf(t, id) <= StampOf(t, other);
      Some(id)
  }

  /** At most `limit` listed rows with a stamp after `after`, by their stamp. */
  ghost function ListUnsent(t: Table, after: nat, limit: nat): seq<ItemId>
    decreases limit
  {
    if limit == 0 || Next(t, after).None? then []
    else
      var id := Next(t, after).value;
      [id] + ListUnsent(t, StampOf(t, id), limit - 1)
  }

  /** The last stamp a page gave: what the next page is asked after. */
  ghost function LastStamp(t: Table, after: nat, page: seq<ItemId>): nat {
    if page == [] then after else StampOf(t, page[|page| - 1])
  }

  /** A page says all there is to say of the listed rows up to its last stamp. */
  ghost predicate IsPage(t: Table, after: nat, limit: nat, page: seq<ItemId>) {
    && |page| <= limit
    && (forall id <- page :: IsListed(t, id) && after < StampOf(t, id))
    && (forall i, j :: 0 <= i < j < |page| ==> StampOf(t, page[i]) < StampOf(t, page[j]))
    && (forall id :: IsListed(t, id) && after < StampOf(t, id) && id !in page ==> |page| == limit && LastStamp(t, after, page) < StampOf(t, id))
  }

  lemma {:induction false} ListUnsentIsPage(t: Table, after: nat, limit: nat)
    requires StampsOk(t)
    ensures IsPage(t, after, limit, ListUnsent(t, after, limit))
    decreases limit
  {
    if limit > 0 && Next(t, after).Some? {
      var id := Next(t, after).value;
      var rest := ListUnsent(t, StampOf(t, id), limit - 1);
      ListUnsentIsPage(t, StampOf(t, id), limit - 1);
      NextLeadsPage(t, after, limit, rest);
    } else {
      assert forall id :: IsListed(t, id) && after < StampOf(t, id) ==> id in ListedAfter(t, after);
    }
  }

  /** The next row, and a page after it. */
  lemma NextLeadsPage(t: Table, after: nat, limit: nat, rest: seq<ItemId>)
    requires StampsOk(t) && limit > 0 && Next(t, after).Some? && IsPage(t, StampOf(t, Next(t, after).value), limit - 1, rest)
    ensures IsPage(t, after, limit, [Next(t, after).value] + rest)
  {
  }

  /** No other page answers the same: the rules of a page leave nothing open. */
  lemma {:induction false} PageIsTheOne(t: Table, after: nat, limit: nat, page: seq<ItemId>)
    requires StampsOk(t) && IsPage(t, after, limit, page)
    ensures page == ListUnsent(t, after, limit)
    decreases limit
  {
    hide *;
    if page != [] {
      FirstIsNext(t, after, limit, page);
      RestIsPage(t, after, limit, page);
      NextIsListedFirst(t, after, limit);
      PageIsTheOne(t, StampOf(t, page[0]), limit - 1, page[1..]);
      assert page == [page[0]] + page[1..];
    } else {
      EmptyPage(t, after, limit);
    }
  }

  lemma NextIsListedFirst(t: Table, after: nat, limit: nat)
    requires limit > 0 && Next(t, after).Some?
    ensures ListUnsent(t, after, limit) == [Next(t, after).value] + ListUnsent(t, StampOf(t, Next(t, after).value), limit - 1)
  {
  }

  lemma EmptyPage(t: Table, after: nat, limit: nat)
    requires IsPage(t, after, limit, [])
    ensures ListUnsent(t, after, limit) == []
  {
  }

  lemma FirstIsNext(t: Table, after: nat, limit: nat, page: seq<ItemId>)
    requires StampsOk(t) && IsPage(t, after, limit, page) && page != []
    ensures limit > 0 && Next(t, after) == Some(page[0])
  {
    assert page[0] in page && page[0] in ListedAfter(t, after);
    var id := Next(t, after).value;
    assert id in ListedAfter(t, after) && StampOf(t, id) <= StampOf(t, page[0]) <= LastStamp(t, after, page);
    assert id in page;
    var i :| 0 <= i < |page| && page[i] == id;
  }

  lemma RestIsPage(t: Table, after: nat, limit: nat, page: seq<ItemId>)
    requires StampsOk(t) && IsPage(t, after, limit, page) && page != []
    ensures IsPage(t, StampOf(t, page[0]), limit - 1, page[1..])
  {
  }

  // ---------------------------------------------------------------- page by page, while the table changes

  datatype Read = Read(table: Table, after: nat, limit: nat, page: seq<ItemId>)

  /**
    A reader asks for pages, each after the last stamp it was given, until one is not full.
    The table may be another at each page.
  */
  ghost predicate IsReading(pages: seq<Read>) {
    && |pages| > 0 && pages[0].after == 0
    && (forall i :: 0 <= i < |pages| ==> StampsOk(pages[i].table) && pages[i].page == ListUnsent(pages[i].table, pages[i].after, pages[i].limit))
    && (forall i :: 0 <= i < |pages| - 1 ==> pages[i + 1].after == LastStamp(pages[i].table, pages[i].after, pages[i].page))
    && |pages[|pages| - 1].page| < pages[|pages| - 1].limit
  }

  /** A page is after all that was given before it. */
  lemma {:induction false} LaterPagesAreLater(pages: seq<Read>, i: nat, j: nat)
    requires IsReading(pages) && i < j < |pages|
    ensures LastStamp(pages[i].table, pages[i].after, pages[i].page) <= pages[j].after
    decreases j
  {
    if i < j - 1 {
      LaterPagesAreLater(pages, i, j - 1);
      ListUnsentIsPage(pages[j - 1].table, pages[j - 1].after, pages[j - 1].limit);
    }
  }

  /** The stamps go up over the whole reading: what came to be unsent first is read first. */
  lemma ReadInOrder(pages: seq<Read>, i: nat, a: nat, j: nat, b: nat)
    requires IsReading(pages) && i < |pages| && j < |pages| && a < |pages[i].page| && b < |pages[j].page|
    requires i < j || (i == j && a < b)
    ensures StampOf(pages[i].table, pages[i].page[a]) < StampOf(pages[j].table, pages[j].page[b])
  {
    ListUnsentIsPage(pages[i].table, pages[i].after, pages[i].limit);
    ListUnsentIsPage(pages[j].table, pages[j].after, pages[j].limit);
    if i < j {
      LaterPagesAreLater(pages, i, j);
    }
  }

  ghost predicate IsAt(pages: seq<Read>, i: int, a: int, id: ItemId) {
    0 <= i < |pages| && 0 <= a < |pages[i].page| && pages[i].page[a] == id
  }

  /** Until a row is given, the reader has not come to its stamp. */
  lemma {:induction false} NotPassedUnread(pages: seq<Read>, id: ItemId, stamp: nat, i: nat)
    requires IsReading(pages) && i < |pages| && stamp > 0
    requires forall k :: 0 <= k < |pages| ==> IsListed(pages[k].table, id) && StampOf(pages[k].table, id) == stamp
    requires forall k :: 0 <= k < i ==> id !in pages[k].page
    ensures pages[i].after < stamp
    decreases i
  {
    if i > 0 {
      NotPassedUnread(pages, id, stamp, i - 1);
      ListUnsentIsPage(pages[i - 1].table, pages[i - 1].after, pages[i - 1].limit);
    }
  }

  /**
    A row that stays unsent with its stamp, and is not left here, is given by exactly one
    page, once, whatever else happens to the table between the pages.
  */
  lemma EachUnsentReadOnce(pages: seq<Read>, id: ItemId, stamp: nat)
    requires IsReading(pages) && stamp > 0
    requires forall k :: 0 <= k < |pages| ==> IsListed(pages[k].table, id) && StampOf(pages[k].table, id) == stamp
    ensures exists i, a :: IsAt(pages, i, a, id)
    ensures forall i, a, j, b :: IsAt(pages, i, a, id) && IsAt(pages, j, b, id) ==> i == j && a == b
  {
    if forall k :: 0 <= k < |pages| ==> id !in pages[k].page {
      var last := |pages| - 1;
      NotPassedUnread(pages, id, stamp, last);
      ListUnsentIsPage(pages[last].table, pages[last].after, pages[last].limit);
    } else {
      var k :| 0 <= k < |pages| && id in pages[k].page;
      var a :| 0 <= a < |pages[k].page| && pages[k].page[a] == id;
      assert IsAt(pages, k, a, id);
    }
    forall i, a, j, b | IsAt(pages, i, a, id) && IsAt(pages, j, b, id)
      ensures i == j && a == b
    {
      if i < j || (i == j && a < b) {
        ReadInOrder(pages, i, a, j, b);
      } else if j < i || b < a {
        ReadInOrder(pages, j, b, i, a);
      }
    }
  }

  // ---------------------------------------------------------------- what is listed

  /** `d` is a directory above the item, on a way up from it to the root. */
  ghost predicate IsAbove(rows: Rows, id: ItemId, d: ItemId) {
    exists s :: IsWayUp(ParentsOf(rows), id, s) && exists i :: 0 < i < |s| && s[i] == d
  }

  /**
    A row is listed exactly when it has a stamp and is bound, or neither its own name is ignored
    nor that of any directory above it that is not bound.
  */
  lemma ListedIff(t: Table, id: ItemId)
    requires Core(t) && id in t.rows
    ensures IsListed(t, id) <==>
              && t.rows[id].unsentSince.Some?
              && (t.rows[id].binding.None? ==>
                    && !t.rows[id].isNameIgnored
                    && forall d <- t.rows :: IsAbove(t.rows, id, d) ==> t.rows[d].binding.Some? || !t.rows[d].isNameIgnored)
  {
    var p := ParentsOf(t.rows);
    assert RowOk(t.rows, id, t.rows[id]) && RowOk(t.rows, ROOT, t.rows[ROOT]);
    hide RowsOk, RowsUnique, StampsOk, IsEntryName;
    if id in p {
      WalkUpOfTree(p, id);
      var s := WalkUp(p, id);
      forall d
        ensures IsAbove(t.rows, id, d) <==> exists i :: 0 < i < |s| && s[i] == d
      {
        AboveIff(t.rows, id, d);
      }
    } else {
      NothingIsAbove(t.rows, id);
    }
  }

  lemma AboveIff(rows: Rows, id: ItemId, d: ItemId)
    requires IsTree(ParentsOf(rows)) && id in ParentsOf(rows)
    ensures Up(ParentsOf(rows), id, MAX_CHAIN + 1).Some?
    ensures IsAbove(rows, id, d) <==> exists i :: 0 < i < |WalkUp(ParentsOf(rows), id)| && WalkUp(ParentsOf(rows), id)[i] == d
  {
    var p := ParentsOf(rows);
    WalkUpOfTree(p, id);
    var s := WalkUp(p, id);
    TreeHasWayUp(p, id);
    forall other | IsWayUp(p, id, other)
      ensures other == s
    {
      StepsAreChain(p, other);
      ChainIsUp(p, other, MAX_CHAIN + 1);
    }
  }

  /** Of what has no place in the folder nothing is above. */
  lemma NothingIsAbove(rows: Rows, id: ItemId)
    requires id !in ParentsOf(rows)
    ensures forall d :: !IsAbove(rows, id, d)
    ensures !IsBelowIgnored(rows, id)
  {
    forall s | IsWayUp(ParentsOf(rows), id, s)
      ensures |s| == 1
    {
    }
  }
}
