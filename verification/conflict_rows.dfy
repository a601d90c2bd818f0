/** The rows of the "kept both versions" list: newest first, each copy once, and what of one list is in another. */
module ConflictRows {

  const SHOWN: nat := 200

  type Copy = string

  datatype Conflict = Conflict(time: int, original: string, copy: Copy, kind: string)

  // ---------------------------------------------------------------- newest first

  /** A conflict, and where in the list given it stands. */
  datatype Given = Given(at: nat, conflict: Conflict)

  predicate IsGiven(conflicts: seq<Conflict>, g: Given) {
    g.at < |conflicts| && conflicts[g.at] == g.conflict
  }

  /** One comes before another: it is newer, or as new and given before it. */
  predicate Precedes(a: Given, b: Given) {
    a.conflict.time > b.conflict.time || (a.conflict.time == b.conflict.time && a.at < b.at)
  }

  /** One is put behind all that are as new. */
  function Insert(sorted: seq<Given>, g: Given): seq<Given> {
    if sorted != [] && g.conflict.time > sorted[|sorted| - 1].conflict.time then
      Insert(sorted[..|sorted| - 1], g) + [sorted[|sorted| - 1]]
    else sorted + [g]
  }

  /** Newest first, and else in the order they were given. */
  function Sorted(conflicts: seq<Conflict>): seq<Given> {
    if conflicts == [] then []
    else Insert(Sorted(conflicts[..|conflicts| - 1]), Given(|conflicts| - 1, conflicts[|conflicts| - 1]))
  }

  function Copies(given: seq<Given>): set<Copy> {
    set g | g in given :: g.conflict.copy
  }

  /** Each copy the first time it comes. */
  function FirstOfEach(given: seq<Given>): seq<Given> {
    if given == [] then []
    else
      var before, last := FirstOfEach(given[..|given| - 1]), given[|given| - 1];
      if last.conflict.copy in Copies(before) then before else before + [last]
  }

  function Rows(given: seq<Given>): seq<Conflict> {
    seq(|given|, k requires 0 <= k < |given| => given[k].conflict)
  }

  function AllWanted(conflicts: seq<Conflict>): seq<Conflict> {
    Rows(FirstOfEach(Sorted(conflicts)))
  }

  /** The rows the window shows. */
  function Wanted(conflicts: seq<Conflict>): seq<Conflict> {
    if |AllWanted(conflicts)| > SHOWN then AllWanted(conflicts)[..SHOWN] else AllWanted(conflicts)
  }

  ghost predicate InOrder(given: seq<Given>) {
    forall a, b :: 0 <= a < b < |given| ==> Precedes(given[a], given[b])
  }

  lemma InOrderMore(given: seq<Given>, last: Given)
    requires InOrder(given) && forall other <- given :: Precedes(other, last)
    ensures InOrder(given + [last])
  {
    var longer := given + [last];
    forall a, b | 0 <= a < b < |longer|
      ensures Precedes(longer[a], longer[b])
    {
      assert longer[a] in given;
    }
    hide Precedes;
  }

  lemma LastFollowsAll(sorted: seq<Given>, other: Given)
    requires InOrder(sorted) && sorted != [] && other in sorted
    ensures other == sorted[|sorted| - 1] || Precedes(other, sorted[|sorted| - 1])
    ensures InOrder(sorted[..|sorted| - 1])
    ensures other in sorted[..|sorted| - 1] ==> Precedes(other, sorted[|sorted| - 1])
  {
    hide Precedes;
  }

  lemma {:induction false} InsertedInOrder(sorted: seq<Given>, g: Given)
    requires InOrder(sorted) && forall other <- sorted :: other.at < g.at
    ensures InOrder(Insert(sorted, g))
    ensures forall other :: other in Insert(sorted, g) <==> other in sorted || other == g
  {
    hide InOrder;
    if sorted != [] {
      var before, last := sorted[..|sorted| - 1], sorted[|sorted| - 1];
      assert sorted == before + [last];
      forall other <- sorted
        ensures other == last || Precedes(other, last)
        ensures other in before ==> Precedes(other, last)
        ensures InOrder(before)
      {
        LastFollowsAll(sorted, other);
      }
      if g.conflict.time > last.conflict.time {
        InsertedInOrder(before, g);
        InOrderMore(Insert(before, g), last);
      } else {
        InOrderMore(sorted, g);
      }
    } else {
      assert sorted + [g] == [g];
      OneInOrder(g);
    }
  }

  lemma OneInOrder(g: Given)
    ensures InOrder([g])
  {
  }

  /** The entries of a list are those of the list before its last, and the last. */
  lemma GivenMore(conflicts: seq<Conflict>)
    requires conflicts != []
    ensures var before := conflicts[..|conflicts| - 1];
            forall g :: IsGiven(conflicts, g) <==> IsGiven(before, g) || g == Given(|before|, conflicts[|before|])
    ensures forall g :: IsGiven(conflicts[..|conflicts| - 1], g) ==> g.at < |conflicts| - 1
  {
  }

  lemma NoneGiven(conflicts: seq<Conflict>)
    requires conflicts == []
    ensures InOrder([]) && forall g :: !IsGiven(conflicts, g)
  {
  }

  lemma {:induction false} SortedInOrder(conflicts: seq<Conflict>)
    ensures InOrder(Sorted(conflicts))
    ensures forall g :: g in Sorted(conflicts) <==> IsGiven(conflicts, g)
  {
    hide Insert, InOrder, IsGiven;
    if conflicts == [] {
      NoneGiven(conflicts);
    } else {
      var before := conflicts[..|conflicts| - 1];
      SortedInOrder(before);
      GivenMore(conflicts);
      InsertedInOrder(Sorted(before), Given(|before|, conflicts[|before|]));
    }
  }

  /** The newest of its copy, and the first given of those as new. */
  ghost predicate IsNewest(given: seq<Given>, g: Given) {
    forall other <- given :: other != g && other.conflict.copy == g.conflict.copy ==> Precedes(g, other)
  }

  lemma {:induction false} FirstOfEachIs(given: seq<Given>)
    requires InOrder(given)
    ensures InOrder(FirstOfEach(given))
    ensures forall g :: g in FirstOfEach(given) <==> g in given && IsNewest(given, g)
    ensures Copies(FirstOfEach(given)) == Copies(given)
  {
    hide Copies, IsNewest, InOrder;
    if given == [] {
      NothingGiven();
    } else {
      var before, last := given[..|given| - 1], given[|given| - 1];
      assert given == before + [last];
      LastIsLater(before, last);
      FirstOfEachIs(before);
      CopiesMore(before, last);
      CopiesMore(FirstOfEach(before), last);
      NewestMore(before, last);
      OneMoreInOrder(FirstOfEach(before), last);
    }
  }

  lemma NothingGiven()
    ensures InOrder([])
  {
  }

  lemma OneMoreInOrder(given: seq<Given>, last: Given)
    requires InOrder(given) && forall g <- given :: Precedes(g, last)
    ensures InOrder(given + [last])
  {
  }

  lemma LastIsLater(before: seq<Given>, last: Given)
    requires InOrder(before + [last])
    ensures InOrder(before) && forall g <- before :: Precedes(g, last)
  {
    var given := before + [last];
    forall a, b | 0 <= a < b < |before|
      ensures Precedes(before[a], before[b])
    {
      assert given[a] == before[a] && given[b] == before[b];
    }
    forall g <- before
      ensures Precedes(g, last)
    {
      var a :| 0 <= a < |before| && before[a] == g;
      assert given[a] == g && given[|before|] == last;
    }
  }

  lemma CopiesMore(before: seq<Given>, last: Given)
    ensures Copies(before + [last]) == Copies(before) + {last.conflict.copy}
  {
  }

  lemma NewestMore(before: seq<Given>, last: Given)
    requires forall g <- before :: Precedes(g, last)
    ensures forall g <- before :: IsNewest(before + [last], g) <==> IsNewest(before, g)
    ensures IsNewest(before + [last], last) <==> last.conflict.copy !in Copies(before)
    ensures last !in before
  {
  }

  /** Of all conflicts given, none of the same copy comes before it. */
  ghost predicate IsNewestOfAll(conflicts: seq<Conflict>, g: Given) {
    IsGiven(conflicts, g) && forall other :: IsGiven(conflicts, other) && other != g && other.conflict.copy == g.conflict.copy ==> Precedes(g, other)
  }

  /**
    The rows are of exactly the conflicts that are the newest of their copy, newest first and
    else in the order they were given, and they are cut at the number shown.
  */
  lemma WantedAreNewest(conflicts: seq<Conflict>)
    ensures var given := FirstOfEach(Sorted(conflicts));
            && InOrder(given)
            && (forall g :: g in given <==> IsNewestOfAll(conflicts, g))
            && |AllWanted(conflicts)| == |given|
            && |Wanted(conflicts)| == (if |given| > 200 then 200 else |given|)
            && forall k :: 0 <= k < |Wanted(conflicts)| ==> Wanted(conflicts)[k] == given[k].conflict
  {
    SortedInOrder(conflicts);
    FirstOfEachIs(Sorted(conflicts));
    NewestOfAll(conflicts, Sorted(conflicts));
    hide Sorted, FirstOfEach, IsNewest, IsNewestOfAll, InOrder;
  }

  lemma NewestOfAll(conflicts: seq<Conflict>, sorted: seq<Given>)
    requires forall g :: g in sorted <==> IsGiven(conflicts, g)
    ensures forall g :: g in sorted && IsNewest(sorted, g) <==> IsNewestOfAll(conflicts, g)
  {
  }

  predicate Distinct(rows: seq<Conflict>) {
    forall a, b :: 0 <= a < b < |rows| ==> rows[a].copy != rows[b].copy
  }

  lemma WantedAreDistinct(conflicts: seq<Conflict>)
    ensures Distinct(Wanted(conflicts))
  {
    WantedAreNewest(conflicts);
    var given := FirstOfEach(Sorted(conflicts));
    hide AllWanted, Wanted, FirstOfEach, Sorted;
    forall a, b | 0 <= a < b < |Wanted(conflicts)|
      ensures Wanted(conflicts)[a].copy != Wanted(conflicts)[b].copy
    {
      assert given[a] in given && given[b] in given;
      assert Precedes(given[a], given[b]) && !Precedes(given[b], given[a]);
      assert IsNewestOfAll(conflicts, given[b]) && IsGiven(conflicts, given[a]);
    }
  }

  // ---------------------------------------------------------------- what stays

  function CopiesOf(rows: seq<Conflict>): set<Copy> {
    set row | row in rows :: row.copy
  }

  /** Those whose copy is among these. */
  function Kept(rows: seq<Conflict>, copies: set<Copy>): seq<Conflict> {
    if rows == [] then []
    else Kept(rows[..|rows| - 1], copies) + if rows[|rows| - 1].copy in copies then [rows[|rows| - 1]] else []
  }

  lemma {:induction false} KeptConcat(a: seq<Conflict>, b: seq<Conflict>, copies: set<Copy>)
    ensures Kept(a + b, copies) == Kept(a, copies) + Kept(b, copies)
    decreases |b|
  {
    if b == [] {
      assert a + b == a;
    } else {
      KeptConcat(a, b[..|b| - 1], copies);
      assert (a + b)[..|a + b| - 1] == a + b[..|b| - 1];
    }
  }

  lemma {:induction false} AllKept(rows: seq<Conflict>, copies: set<Copy>)
    requires forall row <- rows :: row.copy in copies
    ensures Kept(rows, copies) == rows
  {
    if rows != [] {
      assert rows[|rows| - 1] in rows;
      AllKept(rows[..|rows| - 1], copies);
    }
  }

  lemma {:induction false} NoneKept(rows: seq<Conflict>, copies: set<Copy>)
    requires forall row <- rows :: row.copy !in copies
    ensures Kept(rows, copies) == []
  {
    if rows != [] {
      assert rows[|rows| - 1] in rows;
      NoneKept(rows[..|rows| - 1], copies);
    }
  }

  /** Those not among these stand in one run. */
  ghost predicate IsOneRun(rows: seq<Conflict>, copies: set<Copy>) {
    forall i, j, k :: 0 <= i < j < k < |rows| && rows[i].copy !in copies && rows[k].copy !in copies ==> rows[j].copy !in copies
  }

  /** Exactly the rows of this run are not among these. */
  ghost predicate IsTheRun(rows: seq<Conflict>, copies: set<Copy>, first: int, length: nat) {
    && (length > 0 ==> 0 <= first && first + length <= |rows|)
    && forall i :: 0 <= i < |rows| ==> (rows[i].copy !in copies <==> length > 0 && first <= i < first + length)
  }

  /** What is kept is all but the run. */
  lemma KeptIsAllBut(rows: seq<Conflict>, copies: set<Copy>, first: int, length: nat)
    requires IsTheRun(rows, copies, first, length)
    ensures Kept(rows, copies) == if length > 0 then rows[..first] + rows[first + length..] else rows
  {
    if length == 0 {
      AllOf(rows, copies);
    } else {
      PartsOf(rows, copies, first, length);
      assert rows == rows[..first] + rows[first..first + length] + rows[first + length..];
      hide IsTheRun, Kept;
      KeptOfParts(rows[..first], rows[first..first + length], rows[first + length..], copies);
    }
  }

  lemma KeptOfParts(a: seq<Conflict>, b: seq<Conflict>, c: seq<Conflict>, copies: set<Copy>)
    requires forall row <- a + c :: row.copy in copies
    requires forall row <- b :: row.copy !in copies
    ensures Kept(a + b + c, copies) == a + c
  {
    hide Kept;
    KeptConcat(a + b, c, copies);
    KeptConcat(a, b, copies);
    forall row | row in a || row in c
      ensures row.copy in copies
    {
      assert row in a + c;
    }
    AllKept(a, copies);
    NoneKept(b, copies);
    AllKept(c, copies);
  }

  lemma AllOf(rows: seq<Conflict>, copies: set<Copy>)
    requires forall i :: 0 <= i < |rows| ==> rows[i].copy in copies
    ensures Kept(rows, copies) == rows
  {
  }

  lemma PartsOf(rows: seq<Conflict>, copies: set<Copy>, first: int, length: nat)
    requires IsTheRun(rows, copies, first, length) && length > 0
    ensures forall row <- rows[..first] :: row.copy in copies
    ensures forall row <- rows[first..first + length] :: row.copy !in copies
    ensures forall row <- rows[first + length..] :: row.copy in copies
  {
  }

  /** How many are kept before a row, when the others are one run. */
  lemma KeptBefore(rows: seq<Conflict>, copies: set<Copy>, first: int, length: nat, i: nat)
    requires IsTheRun(rows, copies, first, length) && i < |rows| && rows[i].copy in copies
    ensures |Kept(rows[..i], copies)| == if length > 0 && i >= first + length then i - length else i
  {
    var n: nat := if length == 0 || i < first then 0 else length;
    assert IsTheRun(rows[..i], copies, if n == 0 then 0 else first, n);
    KeptIsAllBut(rows[..i], copies, if n == 0 then 0 else first, n);
  }
}
