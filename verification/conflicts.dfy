/** The list's model: one diff, or a reset, that makes of a view's old rows the new ones. */
module Conflicts {
  import opened ConflictRows

  /** What a view is told: rows went, rows came, rows changed; or that everything may have. */
  datatype Diff =
    | Reset
    | OneDiff(removeFirst: int, removeCount: nat, insertFirst: int, insertCount: nat, firstChanged: int, lastChanged: int)

  predicate FitsView(diff: Diff, view: seq<Conflict>, rows: seq<Conflict>) {
    diff.OneDiff? ==>
      && (diff.removeCount > 0 ==> 0 <= diff.removeFirst && diff.removeFirst + diff.removeCount <= |view|)
      && (diff.insertCount > 0 ==> 0 <= diff.insertFirst <= |view| - diff.removeCount && diff.insertFirst + diff.insertCount <= |rows|)
      && |view| - diff.removeCount + diff.insertCount == |rows|
      && (diff.firstChanged >= 0 ==> diff.firstChanged <= diff.lastChanged < |rows|)
      && diff.removeCount <= |view|
  }

  /** Some rows go. */
  function Removed(view: seq<Conflict>, first: int, count: nat): seq<Conflict>
    requires count > 0 ==> 0 <= first && first + count <= |view|
  {
    if count > 0 then view[..first] + view[first + count..] else view
  }

  /** Some of the model's rows come. */
  function Inserted(view: seq<Conflict>, rows: seq<Conflict>, first: int, count: nat): seq<Conflict>
    requires count > 0 ==> 0 <= first <= |view| && first + count <= |rows|
  {
    if count > 0 then view[..first] + rows[first..first + count] + view[first..] else view
  }

  /** Some rows are read again. */
  function ReadAgain(view: seq<Conflict>, rows: seq<Conflict>, first: int, last: int): seq<Conflict>
    requires |view| == |rows|
  {
    seq(|view|, i requires 0 <= i < |view| => if 0 <= first <= i <= last then rows[i] else view[i])
  }

  /** What a view that keeps its rows makes of a diff; the rows it reads are the model's. */
  function Applied(view: seq<Conflict>, diff: Diff, rows: seq<Conflict>): seq<Conflict>
    requires FitsView(diff, view, rows)
  {
    match diff
    case Reset => rows
    case OneDiff(rf, rc, cf, cc, first, last) => ReadAgain(Inserted(Removed(view, rf, rc), rows, cf, cc), rows, first, last)
  }

  function CopySeq(rows: seq<Conflict>): seq<Copy> {
    seq(|rows|, i requires 0 <= i < |rows| => rows[i].copy)
  }

  /** One removal and one insertion are enough: each side's own rows are one run, and the rest stands in one order. */
  ghost predicate IsOneDiff(old_: seq<Conflict>, rows: seq<Conflict>) {
    && IsOneRun(old_, CopiesOf(rows))
    && IsOneRun(rows, CopiesOf(old_))
    && CopySeq(Kept(old_, CopiesOf(rows))) == CopySeq(Kept(rows, CopiesOf(old_)))
  }

  // ---------------------------------------------------------------- the diff makes the new rows

  /** A kept row that is not read again is as it was. */
  ghost predicate SameBut(was: seq<Conflict>, rows: seq<Conflict>, copies: set<Copy>, first: int, last: int) {
    forall i :: 0 <= i < |rows| && rows[i].copy in copies ==>
      var n := |Kept(rows[..i], copies)|;
      n < |was| && (was[n] == rows[i] || 0 <= first <= i <= last)
  }

  lemma InsertedIs(view: seq<Conflict>, rows: seq<Conflict>, first: int, count: nat, i: nat)
    requires (count > 0 ==> 0 <= first <= |view| && first + count <= |rows|) && i < |view| + count
    ensures |Inserted(view, rows, first, count)| == |view| + count
    ensures Inserted(view, rows, first, count)[i] ==
            if count > 0 && first <= i < first + count then rows[i]
            else if count > 0 && i >= first + count then view[i - count] else view[i]
  {
  }

  /** With what went removed and what came inserted, every row is the new one, but for those read again. */
  lemma DiffMakesRows(old_: seq<Conflict>, rows: seq<Conflict>, diff: Diff)
    requires diff.OneDiff?
    requires IsTheRun(old_, CopiesOf(rows), diff.removeFirst, diff.removeCount)
    requires IsTheRun(rows, CopiesOf(old_), diff.insertFirst, diff.insertCount)
    requires |Kept(old_, CopiesOf(rows))| == |Kept(rows, CopiesOf(old_))|
    requires SameBut(Kept(old_, CopiesOf(rows)), rows, CopiesOf(old_), diff.firstChanged, diff.lastChanged)
    requires diff.firstChanged >= 0 ==> diff.firstChanged <= diff.lastChanged < |rows|
    ensures FitsView(diff, old_, rows) && Applied(old_, diff, rows) == rows
  {
    hide Kept, CopiesOf, IsTheRun, SameBut, Inserted;
    var copies := CopiesOf(old_);
    KeptIsAllBut(old_, CopiesOf(rows), diff.removeFirst, diff.removeCount);
    KeptIsAllBut(rows, copies, diff.insertFirst, diff.insertCount);
    RunFits(old_, CopiesOf(rows), diff.removeFirst, diff.removeCount);
    RunFits(rows, copies, diff.insertFirst, diff.insertCount);
    var left := Removed(old_, diff.removeFirst, diff.removeCount);
    var view := Inserted(left, rows, diff.insertFirst, diff.insertCount);
    LengthIs(left, rows, diff.insertFirst, diff.insertCount);
    forall i: nat | i < |rows|
      ensures view[i] == rows[i] || 0 <= diff.firstChanged <= i <= diff.lastChanged
    {
      RowIs(left, rows, copies, diff, i);
    }
  }

  lemma RunFits(rows: seq<Conflict>, copies: set<Copy>, first: int, length: nat)
    requires IsTheRun(rows, copies, first, length)
    ensures length > 0 ==> 0 <= first && first + length <= |rows|
  {
  }

  lemma LengthIs(view: seq<Conflict>, rows: seq<Conflict>, first: int, count: nat)
    requires count > 0 ==> 0 <= first <= |view| && first + count <= |rows|
    ensures |Inserted(view, rows, first, count)| == |view| + count
  {
  }

  /** A row that came is the new one; one that was kept is, but for those read again. */
  lemma RowIs(left: seq<Conflict>, rows: seq<Conflict>, copies: set<Copy>, diff: Diff, i: nat)
    requires diff.OneDiff? && IsTheRun(rows, copies, diff.insertFirst, diff.insertCount) && i < |rows| && |left| == |rows| - diff.insertCount
    requires diff.insertCount > 0 ==> 0 <= diff.insertFirst <= |left| && diff.insertFirst + diff.insertCount <= |rows|
    requires SameBut(left, rows, copies, diff.firstChanged, diff.lastChanged)
    ensures |Inserted(left, rows, diff.insertFirst, diff.insertCount)| == |rows|
    ensures Inserted(left, rows, diff.insertFirst, diff.insertCount)[i] == rows[i] || 0 <= diff.firstChanged <= i <= diff.lastChanged
  {
    hide Kept, Inserted;
    InsertedIs(left, rows, diff.insertFirst, diff.insertCount, i);
    if rows[i].copy in copies {
      KeptBefore(rows, copies, diff.insertFirst, diff.insertCount, i);
    }
  }

  // ---------------------------------------------------------------- the order of what is kept

  lemma NextKept(rows: seq<Conflict>, copies: set<Copy>, i: nat)
    requires i < |rows|
    ensures Kept(rows[..i + 1], copies) == if rows[i].copy in copies then Kept(rows[..i], copies) + [rows[i]] else Kept(rows[..i], copies)
  {
    assert rows[..i + 1][..i] == rows[..i];
  }

  /** The kept row at its place among the kept. */
  lemma KeptAt(rows: seq<Conflict>, copies: set<Copy>, i: nat)
    requires i < |rows| && rows[i].copy in copies
    ensures |Kept(rows[..i], copies)| < |Kept(rows, copies)| && Kept(rows, copies)[|Kept(rows[..i], copies)|] == rows[i]
  {
    assert rows == rows[..i] + [rows[i]] + rows[i + 1..];
    KeptConcat(rows[..i] + [rows[i]], rows[i + 1..], copies);
    KeptConcat(rows[..i], [rows[i]], copies);
    AllKept([rows[i]], copies);
    hide Kept;
  }

  lemma {:induction false} KeptCount(rows: seq<Conflict>, copies: set<Copy>)
    requires Distinct(rows)
    ensures |Kept(rows, copies)| == |CopiesOf(rows) * copies|
  {
    hide CopiesOf;
    if rows == [] {
      NoCopies();
    } else {
      var before, last := rows[..|rows| - 1], rows[|rows| - 1];
      assert rows == before + [last];
      LastIsNew(before, last);
      KeptCount(before, copies);
      OneMoreCommon(CopiesOf(before), last.copy, copies);
    }
  }

  lemma NoCopies()
    ensures CopiesOf([]) == {}
  {
  }

  lemma OneMoreCommon(all: set<Copy>, one: Copy, copies: set<Copy>)
    requires one !in all
    ensures |(all + {one}) * copies| == |all * copies| + if one in copies then 1 else 0
  {
    assert (all + {one}) * copies == if one in copies then all * copies + {one} else all * copies;
  }

  lemma LastIsNew(before: seq<Conflict>, last: Conflict)
    requires Distinct(before + [last])
    ensures Distinct(before)
    ensures CopiesOf(before + [last]) == CopiesOf(before) + {last.copy} && last.copy !in CopiesOf(before)
  {
    var rows := before + [last];
    assert rows[..|before|] == before;
    forall i | 0 <= i < |before|
      ensures before[i].copy != last.copy
    {
      assert rows[i] == before[i] && rows[|before|] == last;
    }
    forall row <- before
      ensures row in rows
    {
    }
    assert last in rows;
  }

  /** As many are kept on one side as on the other. */
  lemma SameCount(old_: seq<Conflict>, rows: seq<Conflict>)
    requires Distinct(old_) && Distinct(rows)
    ensures |Kept(old_, CopiesOf(rows))| == |Kept(rows, CopiesOf(old_))|
  {
    KeptCount(old_, CopiesOf(rows));
    KeptCount(rows, CopiesOf(old_));
    assert CopiesOf(old_) * CopiesOf(rows) == CopiesOf(rows) * CopiesOf(old_);
  }

  lemma KeptPrefix(rows: seq<Conflict>, copies: set<Copy>, i: nat)
    requires i <= |rows|
    ensures |Kept(rows[..i], copies)| <= |Kept(rows, copies)| && Kept(rows, copies)[..|Kept(rows[..i], copies)|] == Kept(rows[..i], copies)
  {
    assert rows == rows[..i] + rows[i..];
    KeptConcat(rows[..i], rows[i..], copies);
    hide Kept;
  }

  // ---------------------------------------------------------------- the loops

  /** Each copy where it stands. */
  method IndexRows(rows: seq<Conflict>) returns (rowOf: map<Copy, nat>)
    requires Distinct(rows)
    ensures rowOf.Keys == CopiesOf(rows)
    ensures forall c <- rowOf :: rowOf[c] < |rows| && rows[rowOf[c]].copy == c
  {
    rowOf := map[];
    var i := 0;
    while i < |rows|
      invariant 0 <= i <= |rows|
      invariant forall c :: c in rowOf <==> exists k :: 0 <= k < i && rows[k].copy == c
      invariant forall c <- rowOf :: rowOf[c] < i && rows[rowOf[c]].copy == c
    {
      rowOf := rowOf[rows[i].copy := i];
      i := i + 1;
    }
    forall c
      ensures c in rowOf <==> c in CopiesOf(rows)
    {
      if c in rowOf {
        var k :| 0 <= k < |rows| && rows[k].copy == c;
        assert rows[k] in rows;
      }
    }
  }

  /** Whether the rows whose copy is not among these are one run, and which. */
  method FindRun(rows: seq<Conflict>, copies: set<Copy>) returns (isRun: bool, first: int, length: nat)
    ensures isRun <==> IsOneRun(rows, copies)
    ensures isRun ==> IsTheRun(rows, copies, first, length)
  {
    first, length := -1, 0;
    var last := -1;
    var row := 0;
    while row < |rows|
      invariant 0 <= row <= |rows|
      invariant length == 0 ==> first == -1 && last == -1 && forall i :: 0 <= i < row ==> rows[i].copy in copies
      invariant length > 0 ==> 0 <= first <= last < row && length <= last - first + 1 && rows[first].copy !in copies && rows[last].copy !in copies
      invariant length > 0 ==> forall i :: 0 <= i < row && rows[i].copy !in copies ==> first <= i <= last
      invariant length > 0 ==> (length == last - first + 1 <==> forall i :: first <= i <= last ==> rows[i].copy !in copies)
    {
      if rows[row].copy !in copies {
        if length > 0 && last + 1 < row {
          assert rows[last + 1].copy in copies;
        }
        if first < 0 {
          first := row;
        }
        last := row;
        length := length + 1;
      }
      row := row + 1;
    }
    isRun := length == 0 || last - first + 1 == length;
    if !isRun {
      var i :| first <= i <= last && rows[i].copy in copies;
      assert first < i < last;
    }
  }

  class ConflictModel {
    var rows: seq<Conflict>
    var total: nat

    constructor ()
      ensures rows == [] && total == 0 && Distinct(rows)
    {
      rows, total := [], 0;
    }

    /** Newest first, and each copy once. */
    method Want(conflicts: seq<Conflict>) returns (wanted: seq<Conflict>)
      ensures wanted == AllWanted(conflicts)
    {
      var sorted := Sorted(conflicts);
      var keys: set<Copy> := {};
      ghost var given: seq<Given> := [];
      wanted := [];
      var i := 0;
      while i < |sorted|
        invariant 0 <= i <= |sorted| && given == FirstOfEach(sorted[..i]) && wanted == Rows(given) && keys == Copies(given)
      {
        var conflict := sorted[i].conflict;
        if conflict.copy !in keys {
          CopiesMore(given, sorted[i]);
          keys := keys + {conflict.copy};
          wanted := wanted + [conflict];
          given := given + [sorted[i]];
        }
        i := i + 1;
        assert sorted[..i][..i - 1] == sorted[..i - 1];
      }
      assert sorted[..i] == sorted;
    }

    /** Whether the rows kept stand in one order on both sides, and between which of the new ones their fields changed. */
    method CompareKept(wanted: seq<Conflict>, newKeys: set<Copy>, rowOf: map<Copy, nat>) returns (inOrder: bool, firstChanged: int, lastChanged: int)
      requires Distinct(rows) && Distinct(wanted) && newKeys == CopiesOf(wanted) && rowOf.Keys == CopiesOf(rows)
      requires forall c <- rowOf :: rowOf[c] < |rows| && rows[rowOf[c]].copy == c
      ensures inOrder <==> CopySeq(Kept(rows, newKeys)) == CopySeq(Kept(wanted, CopiesOf(rows)))
      ensures inOrder ==> SameBut(Kept(rows, newKeys), wanted, CopiesOf(rows), firstChanged, lastChanged)
      ensures inOrder && firstChanged >= 0 ==> firstChanged <= lastChanged < |wanted|
    {
      hide Kept, CopiesOf, CopySeq, SameBut, SameButTo;
      ghost var copies := CopiesOf(rows);
      inOrder, firstChanged, lastChanged := true, -1, -1;
      var keptOld, row := 0, 0;
      NothingKept(newKeys, copies);
      NothingCompared(Kept(rows, newKeys), wanted, copies);
      while inOrder && row < |wanted|
        invariant 0 <= row <= |wanted| && 0 <= keptOld <= |rows|
        invariant inOrder ==> CopySeq(Kept(wanted[..row], copies)) == CopySeq(Kept(rows[..keptOld], newKeys))
        invariant inOrder ==> SameButTo(Kept(rows, newKeys), wanted, copies, firstChanged, lastChanged, row)
        invariant !inOrder ==> CopySeq(Kept(rows, newKeys)) != CopySeq(Kept(wanted, copies))
        invariant firstChanged >= 0 ==> firstChanged <= lastChanged < row
        decreases |wanted| - row, inOrder
      {
        var copy := wanted[row].copy;
        ghost var first, last := firstChanged, lastChanged;
        NextKept(wanted, copies, row);
        if copy in rowOf {
          keptOld := SkipGone(newKeys, keptOld);
          KeptAt(wanted, copies, row);
          if rowOf[copy] != keptOld {
            NotInOrder(rows, wanted, newKeys, copies, keptOld, row);
            inOrder := false;
            break;
          }
          NextKept(rows, newKeys, keptOld);
          KeptAt(rows, newKeys, keptOld);
          CopySeqMore(Kept(wanted[..row], copies), wanted[row], Kept(rows[..keptOld], newKeys), rows[keptOld]);
          var was, is_ := rows[keptOld], wanted[row];
          keptOld := keptOld + 1;
          if was.time != is_.time || was.original != is_.original || was.kind != is_.kind {
            if firstChanged < 0 {
              firstChanged := row;
            }
            lastChanged := row;
          }
          SameCopies(Kept(wanted[..row], copies), Kept(rows[..keptOld - 1], newKeys));
        }
        OneMoreCompared(Kept(rows, newKeys), wanted, copies, first, last, row, firstChanged, lastChanged);
        row := row + 1;
      }
      if inOrder {
        SameCount(rows, wanted);
        assert wanted[..row] == wanted;
        WholeInOrder(rows, newKeys, keptOld, Kept(wanted, copies));
        AllCompared(Kept(rows, newKeys), wanted, copies, firstChanged, lastChanged);
      }
    }

    method SkipGone(newKeys: set<Copy>, from: nat) returns (keptOld: nat)
      requires from <= |rows|
      ensures from <= keptOld <= |rows| && (keptOld < |rows| ==> rows[keptOld].copy in newKeys)
      ensures Kept(rows[..keptOld], newKeys) == Kept(rows[..from], newKeys)
    {
      hide Kept;
      keptOld := from;
      while keptOld < |rows| && rows[keptOld].copy !in newKeys
        invariant from <= keptOld <= |rows|
        invariant Kept(rows[..keptOld], newKeys) == Kept(rows[..from], newKeys)
      {
        NextKept(rows, newKeys, keptOld);
        keptOld := keptOld + 1;
      }
    }

    /**
      The list is of these conflicts from now on. What the view is told makes of its rows the
      new ones, and it is told of one diff whenever one is enough.
    */
    method SetConflicts(conflicts: seq<Conflict>) returns (diff: Diff, isCountChanged: bool)
      requires Distinct(rows)
      modifies this
      ensures rows == Wanted(conflicts) && total == |AllWanted(conflicts)| && Distinct(rows)
      ensures FitsView(diff, old(rows), rows) && Applied(old(rows), diff, rows) == rows
      ensures diff.OneDiff? <==> IsOneDiff(old(rows), rows)
      ensures isCountChanged <==> |rows| != |old(rows)| || total != old(total)
    {
      hide Kept, CopiesOf, AllWanted, IsTheRun, IsOneRun, SameBut;
      var beforeCount, beforeTotal := |rows|, total;
      var wanted := Want(conflicts);
      total := |wanted|;
      if |wanted| > SHOWN {
        wanted := wanted[..SHOWN];
      }
      WantedAreDistinct(conflicts);
      var rowOf := IndexRows(rows);
      var newRowOf := IndexRows(wanted);
      var newKeys := newRowOf.Keys;
      var isRemoval, removeFirst, removeCount := FindRun(rows, newKeys);
      var isInsertion, insertFirst, insertCount := FindRun(wanted, rowOf.Keys);
      diff := Reset;
      if isRemoval && isInsertion {
        var inOrder, firstChanged, lastChanged := CompareKept(wanted, newKeys, rowOf);
        if inOrder {
          diff := OneDiff(removeFirst, removeCount, insertFirst, insertCount, firstChanged, lastChanged);
          SameCount(rows, wanted);
          DiffMakesRows(rows, wanted, diff);
        }
      }
      rows := wanted;
      isCountChanged := |rows| != beforeCount || total != beforeTotal;
    }
  }

  lemma NothingKept(newKeys: set<Copy>, copies: set<Copy>)
    ensures Kept([], newKeys) == [] && Kept([], copies) == []
  {
  }

  lemma WholeInOrder(old_: seq<Conflict>, newKeys: set<Copy>, keptOld: nat, kept: seq<Conflict>)
    requires keptOld <= |old_| && |Kept(old_, newKeys)| == |kept| && CopySeq(kept) == CopySeq(Kept(old_[..keptOld], newKeys))
    ensures CopySeq(Kept(old_, newKeys)) == CopySeq(kept)
  {
    hide Kept;
    KeptPrefix(old_, newKeys, keptOld);
    assert |kept| == |CopySeq(kept)| == |Kept(old_[..keptOld], newKeys)|;
  }

  lemma CopySeqMore(a: seq<Conflict>, x: Conflict, b: seq<Conflict>, y: Conflict)
    requires CopySeq(a) == CopySeq(b) && x.copy == y.copy
    ensures |a| == |b| && CopySeq(a + [x]) == CopySeq(b + [y])
  {
    assert |CopySeq(a)| == |a| && |CopySeq(b)| == |b|;
    forall i | 0 <= i < |a|
      ensures a[i].copy == b[i].copy
    {
      assert CopySeq(a)[i] == CopySeq(b)[i];
    }
  }

  /** The same for the rows before one. */
  ghost predicate SameButTo(was: seq<Conflict>, rows: seq<Conflict>, copies: set<Copy>, first: int, last: int, row: nat)
    requires row <= |rows|
  {
    forall i :: 0 <= i < row && rows[i].copy in copies ==>
      var n := |Kept(rows[..i], copies)|;
      n < |was| && (was[n] == rows[i] || 0 <= first <= i <= last)
  }

  lemma NothingCompared(was: seq<Conflict>, rows: seq<Conflict>, copies: set<Copy>)
    ensures SameButTo(was, rows, copies, -1, -1, 0)
  {
  }

  lemma OneMoreCompared(was: seq<Conflict>, rows: seq<Conflict>, copies: set<Copy>, first: int, last: int, row: nat, newFirst: int, newLast: int)
    requires row < |rows| && SameButTo(was, rows, copies, first, last, row)
    requires 0 <= first ==> newFirst == first && last <= newLast
    requires rows[row].copy in copies ==>
               var n := |Kept(rows[..row], copies)|;
               n < |was| && (was[n] == rows[row] || 0 <= newFirst <= row <= newLast)
    ensures SameButTo(was, rows, copies, newFirst, newLast, row + 1)
  {
    hide Kept;
  }

  lemma AllCompared(was: seq<Conflict>, rows: seq<Conflict>, copies: set<Copy>, first: int, last: int)
    requires SameButTo(was, rows, copies, first, last, |rows|)
    ensures SameBut(was, rows, copies, first, last)
  {
    hide Kept;
  }

  lemma SameCopies(a: seq<Conflict>, b: seq<Conflict>)
    requires CopySeq(a) == CopySeq(b)
    ensures |a| == |b|
  {
    assert |CopySeq(a)| == |a| && |CopySeq(b)| == |b|;
  }

  lemma NotInOrder(old_: seq<Conflict>, rows: seq<Conflict>, newKeys: set<Copy>, copies: set<Copy>, keptOld: nat, row: nat)
    requires row < |rows| && rows[row].copy in copies && keptOld <= |old_|
    requires CopySeq(Kept(rows[..row], copies)) == CopySeq(Kept(old_[..keptOld], newKeys))
    requires keptOld < |old_| ==> old_[keptOld].copy in newKeys && old_[keptOld].copy != rows[row].copy
    ensures CopySeq(Kept(old_, newKeys)) != CopySeq(Kept(rows, copies))
  {
    hide Kept;
    KeptAt(rows, copies, row);
    var n := |Kept(rows[..row], copies)|;
    assert n == |CopySeq(Kept(rows[..row], copies))| == |Kept(old_[..keptOld], newKeys)|;
    if keptOld < |old_| {
      KeptAt(old_, newKeys, keptOld);
      assert CopySeq(Kept(old_, newKeys))[n] == old_[keptOld].copy;
      assert CopySeq(Kept(rows, copies))[n] == rows[row].copy;
    } else {
      assert old_[..keptOld] == old_;
      assert |CopySeq(Kept(old_, newKeys))| == n;
    }
  }
}
