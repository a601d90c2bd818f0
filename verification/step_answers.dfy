/** What each operation makes the memory answer: of its own item exactly what it says, and of every other what it answered before. */
module StepAnswers {
  import opened Wrappers
  import opened ItemTree
  import opened ItemTable
  import opened StepFacts
  import opened StepMemories
  import opened StepSessions
  import Reasons

  // ---------------------------------------------------------------- a write and what is answered after it

  lemma NormalSplits(memory: ItemMemory, row: Item)
    ensures SplitByStanding(memory.WithStampOfFacts(), row).said == SplitByStanding(memory, row).said
  {
  }

  /** What is true of the row is answered. */
  lemma TrueIsSaid(memory: ItemMemory, row: Item)
    requires AllTrue(memory, row) && (memory.HoldsFactOfUnsentChange() ==> IsSameUnsentChange(memory, row))
    ensures SplitByStanding(memory, row).said == memory.WithStampOfFacts()
  {
  }

  /** A write changes what is kept of its item alone. */
  lemma KeptAfter(s: Store, id: ItemId, memory: ItemMemory, other: ItemId)
    requires id in s.rows
    ensures Kept(Changed(s, id, memory), other) ==
            if other != id then Kept(s, other)
            else if memory == Kept(s, id) then memory
            else memory.WithStampOfFacts()
    ensures Changed(s, id, memory).rows == s.rows
  {
  }

  lemma SaidAfter(s: Store, id: ItemId, memory: ItemMemory, other: ItemId)
    requires id in s.rows
    ensures Said(Changed(s, id, memory), other) == if other == id then SplitByStanding(memory, s.rows[id]).said else Said(s, other)
  {
    hide Changed, Kept, SplitByStanding;
    KeptAfter(s, id, memory, other);
    NormalSplits(memory, s.rows[id]);
  }

  /** Nothing is kept of an item with no row, and a write for one keeps nothing. */
  lemma SaidOfNoRow(s: Store, id: ItemId, memory: ItemMemory, other: ItemId)
    requires OfRows(s) && id !in s.rows
    ensures Said(Changed(s, id, memory), other) == Said(s, other)
  {
  }

  lemma SaidIsSame(s: Store, u: Store, id: ItemId)
    requires u.rows == s.rows && Kept(u, id) == Kept(s, id)
    ensures Said(u, id) == Said(s, id)
  {
  }

  lemma SaidAgain(s: Store, id: ItemId)
    requires id in s.rows
    ensures AllTrue(Said(s, id), s.rows[id])
    ensures Said(s, id).HoldsFactOfUnsentChange() ==> IsSameUnsentChange(Said(s, id), s.rows[id])
    ensures SplitByStanding(Said(s, id), s.rows[id]).said == Said(s, id)
    ensures Said(s, id).WithStampOfFacts() == Said(s, id)
  {
  }

  /** A write of what was answered with less of it. */
  lemma LessIsSaid(s: Store, id: ItemId, memory: ItemMemory, other: ItemId)
    requires id in s.rows && AllTrue(memory, s.rows[id])
    requires memory.HoldsFactOfUnsentChange() ==> Said(s, id).HoldsFactOfUnsentChange() && memory.unsentSince == Said(s, id).unsentSince
    ensures Said(Changed(s, id, memory), other) == if other == id then memory.WithStampOfFacts() else Said(s, other)
  {
    hide SplitByStanding, AllTrue, Said, Changed;
    SaidAgain(s, id);
    SaidAfter(s, id, memory, other);
    TrueIsSaid(memory, s.rows[id]);
  }

  // ---------------------------------------------------------------- upload sessions

  lemma AbandonChangesNoAnswer(s: Store, session: Option<UploadSession>, id: ItemId)
    ensures Said(Abandon(s, session), id) == Said(s, id) && Kept(Abandon(s, session), id) == Kept(s, id) && Abandon(s, session).rows == s.rows
  {
  }

  lemma TakeAwayChangesNoAnswer(s: Store, id: ItemId, other: ItemId)
    requires OfRows(s)
    ensures Said(TakeAwayGone(s, id), other) == Said(s, other)
  {
    hide SplitByStanding, Changed, Said;
    if id in s.rows {
      SaidAgain(s, id);
      SaidAfter(s, id, Said(s, id), other);
    } else {
      SaidOfNoRow(s, id, Said(s, id), other);
    }
  }

  /** A session given is answered from now on exactly when it is continued; nothing else that is answered changes. */
  lemma RememberAnswers(s: Store, id: ItemId, unsentSince: Option<nat>, given: UploadSession, other: ItemId)
    requires OfRows(s)
    ensures var (u, standing) := RememberSession(s, id, unsentSince, given);
            Said(u, other) ==
            if other == id && standing.Continued? then Said(s, id).(uploadSession := Some(AtPlaceWithRow(s, given)), unsentSince := unsentSince)
            else Said(s, other)
  {
    hide SplitByStanding, Changed, Said, Abandon, Learn;
    var session := AtPlaceWithRow(s, given);
    TakeAwayChangesNoAnswer(s, id, other);
    AbandonChangesNoAnswer(TakeAwayGone(s, id), Some(session), other);
    if id in s.rows {
      SaidIsSplit(s, id);
      LearntIff(Kept(s, id), s.rows[id], unsentSince, SessionFact(session));
      match LearnSession(s, id, unsentSince, session) {
        case Some(learnt) =>
          var earlier := Said(s, id).uploadSession;
          var u := if earlier.Some? && earlier.value.address != session.address then Abandon(s, earlier) else s;
          AbandonChangesNoAnswer(s, earlier, id);
          AbandonChangesNoAnswer(s, earlier, other);
          SaidAfter(u, id, learnt, other);
        case None =>
      }
    }
  }

  lemma SaidIsSplit(s: Store, id: ItemId)
    requires id in s.rows
    ensures Said(s, id) == SplitByStanding(Kept(s, id), s.rows[id]).said
  {
  }

  /** A session that is continued is answered with how far it got; nothing else that is answered changes. */
  lemma AdvanceAnswers(s: Store, id: ItemId, address: Address, nextOffset: nat, expiresAt: Option<int>, other: ItemId)
    requires OfRows(s)
    ensures var (u, standing) := Advance(s, id, address, nextOffset, expiresAt);
            && (standing.Continued? ==> Said(s, id).uploadSession.Some? && Said(s, id).uploadSession.value.address == address)
            && Said(u, other) ==
               if other == id && standing.Continued? then
                 Said(s, id).(uploadSession := Some(Said(s, id).uploadSession.value.(nextOffset := nextOffset, expiresAt := expiresAt)))
               else Said(s, other)
  {
    hide SplitByStanding, Changed, Said, AbandonAddress, KeptBy;
    var (u, standing) := Advance(s, id, address, nextOffset, expiresAt);
    match standing {
      case OfAnotherItem =>
      case Continued =>
        SaidHasRow(s, id);
        SaidAgain(s, id);
        var said := Said(s, id);
        var advanced := said.(uploadSession := Some(said.uploadSession.value.(nextOffset := nextOffset, expiresAt := expiresAt)));
        LessIsSaid(s, id, advanced, other);
      case Abandoned =>
        TakeAwayChangesNoAnswer(s, id, other);
        AbandonAddressKeeps(TakeAwayGone(s, id), address, None);
        SaidIsSame(TakeAwayGone(s, id), u, other);
    }
  }

  lemma SaidHasRow(s: Store, id: ItemId)
    ensures Said(s, id).uploadSession.Some? ==> id in s.rows
  {
  }

  /** A session given up is not answered any more; nothing else that is answered changes. */
  lemma GiveUpAnswers(s: Store, id: ItemId, other: ItemId)
    requires OfRows(s)
    ensures Said(AbandonSession(s, id), other) == if other == id then Said(s, id).(uploadSession := None).WithStampOfFacts() else Said(s, other)
  {
    hide SplitByStanding, Changed, Said, Abandon;
    var said := Said(s, id);
    var u := Abandon(s, said.uploadSession);
    AbandonChangesNoAnswer(s, said.uploadSession, id);
    AbandonChangesNoAnswer(s, said.uploadSession, other);
    AbandonKeeps(s, said.uploadSession);
    if id in s.rows {
      SaidAgain(s, id);
      LessIsSaid(u, id, said.(uploadSession := None), other);
    } else {
      NothingSaidOfNoRow(s, id);
      OfRowsStays(s, u);
      SaidOfNoRow(u, id, said.(uploadSession := None), other);
    }
  }

  lemma NothingSaidOfNoRow(s: Store, id: ItemId)
    requires id !in s.rows
    ensures Said(s, id) == NOTHING
  {
  }

  lemma OfRowsStays(s: Store, u: Store)
    requires OfRows(s) && u.kept == s.kept && u.rows == s.rows
    ensures OfRows(u)
  {
  }

  lemma WithoutSession(memory: ItemMemory, row: Item)
    ensures SplitByStanding(memory.(uploadSession := None).WithStampOfFacts(), row).said == SplitByStanding(memory, row).said.(uploadSession := None).WithStampOfFacts()
    ensures memory.uploadSession.None? ==> SplitByStanding(memory, row).said.(uploadSession := None).WithStampOfFacts() == SplitByStanding(memory, row).said
    ensures SplitByStanding(memory, row).said.uploadSession.Some? ==> SplitByStanding(memory, row).said.uploadSession == memory.uploadSession
    ensures SplitByStanding(memory, row).said.uploadSession.None? ==>
              SplitByStanding(memory, row).said.(uploadSession := None).WithStampOfFacts() == SplitByStanding(memory, row).said
  {
  }

  lemma WriteIs(s: Store, id: ItemId, memory: ItemMemory, other: ItemId)
    ensures Kept(Write(s, id, memory), other) == (if other == id then memory.WithStampOfFacts() else Kept(s, other)) && Write(s, id, memory).rows == s.rows
  {
  }

  /** A session that ended is not answered any more; another that the item has stays, and nothing else changes. */
  lemma EndedAnswers(s: Store, id: ItemId, address: Address, other: ItemId)
    requires OfRows(s)
    ensures Said(ForgetEnded(s, id, address), other) ==
            if other == id && SaidAt(s, id, address) then Said(s, id).(uploadSession := None).WithStampOfFacts() else Said(s, other)
  {
    hide SplitByStanding, TakeAwayGone, Write;
    var u := if KeptBy(s, id, address) then Write(s, id, s.kept[id].(uploadSession := None)) else s;
    if KeptBy(s, id, address) {
      WriteIs(s, id, s.kept[id].(uploadSession := None), other);
      WriteKeeps(s, id, s.kept[id].(uploadSession := None));
      WithoutSession(Kept(s, id), s.rows[id]);
    } else if id in s.rows {
      WithoutSession(Kept(s, id), s.rows[id]);
    }
    TakeAwayChangesNoAnswer(u, id, other);
  }

  lemma ForgetSplits(memory: ItemMemory, row: Item, request: Confirmed)
    ensures SplitByStanding(ForgetConfirmed(memory, request).WithStampOfFacts(), row).said == ForgetConfirmed(SplitByStanding(memory, row).said, request)
    ensures ForgetConfirmed(memory, request) == memory ==> ForgetConfirmed(SplitByStanding(memory, row).said, request) == SplitByStanding(memory, row).said
  {
  }

  /** The upload session that a confirmed request says ended. */
  function EndedBy(request: Confirmed): Option<Address> {
    if request.Upload? then request.endedSession else None
  }

  /**
    A request that OneDrive confirmed ends the tries, of an upload the session that ended with it,
    and of a move the taken name and the other temporary name; nothing else that is answered changes.
  */
  lemma ConfirmedAnswers(s: Store, id: ItemId, request: Confirmed, other: ItemId)
    requires OfRows(s) && id in s.rows
    ensures var said, ended := ForgetConfirmed(Said(s, id), request), EndedBy(request);
            Said(ForgetConfirmedRequest(s, id, request), other) ==
            if other != id then Said(s, other)
            else if ended.Some? && SaidAt(s, id, ended.value) then said.(uploadSession := None).WithStampOfFacts()
            else said
  {
    hide SplitByStanding, TakeAwayGone, ForgetConfirmed, ChangeKept, ForgetEnded, Said;
    var u := ChangeKept(s, id, ForgetConfirmed(Kept(s, id), request));
    ConfirmedIsSaid(s, id, request, id);
    ConfirmedIsSaid(s, id, request, other);
    if EndedBy(request).Some? {
      SessionIsKept(Said(s, id), request);
      EndedAnswers(u, id, EndedBy(request).value, other);
    } else {
      TakeAwayChangesNoAnswer(u, id, other);
    }
  }

  lemma ConfirmedIsSaid(s: Store, id: ItemId, request: Confirmed, other: ItemId)
    requires OfRows(s) && id in s.rows
    ensures var u := ChangeKept(s, id, ForgetConfirmed(Kept(s, id), request));
            OfRows(u) && Said(u, other) == if other == id then ForgetConfirmed(Said(s, id), request) else Said(s, other)
  {
    hide SplitByStanding, ForgetConfirmed, ChangeKept;
    var memory := ForgetConfirmed(Kept(s, id), request);
    ForgetSplits(Kept(s, id), s.rows[id], request);
    NormalSplits(memory, s.rows[id]);
    KeptAfterKept(s, id, memory, other);
    ChangeKeptKeeps(s, id, memory);
  }

  lemma SessionIsKept(said: ItemMemory, request: Confirmed)
    ensures ForgetConfirmed(said, request).uploadSession == said.uploadSession
  {
  }

  // ---------------------------------------------------------------- the other facts

  /** The fact that is given; of a failed try, one more than were counted of this change, or as many as can be. */
  ghost predicate IsAsGiven(tries: Option<FailedTries>, given: Given, fact: Fact) {
    match given
    case GivenFact(other) => fact == other
    case GivenTry(reason, nextTryAt) =>
      && fact.TriesFact? && fact.tries.lastFailure == reason && fact.tries.nextTryAt == nextTryAt
      && (tries.None? ==> fact.tries.count == 1)
      && (tries.Some? && tries.value.count < 0xFFFF_FFFF ==> fact.tries.count == tries.value.count + 1)
      && (tries.Some? && tries.value.count >= 0xFFFF_FFFF ==> fact.tries.count == 0xFFFF_FFFF)
  }

  /** The root is refused by nobody, and who holds a name has one. */
  ghost predicate MayNotBe(id: ItemId, given: Given) {
    given.GivenFact? && ((given.fact.RefusalFact? && id == ItemId(1)) || (given.fact.TakenFact? && given.fact.taken.holderName == ""))
  }

  /**
    With no row, or when it can be no fact, it is an error. Otherwise it is among the answers
    afterwards exactly if the row's stamp is the one given with it and the row bears it out;
    no other answer of any item changes.
  */
  lemma FactAnswers(s: Store, id: ItemId, unsentSince: Option<nat>, given: Given, other: ItemId)
    requires OfRows(s)
    ensures var fact := FactOf(Said(s, id), given);
            && IsAsGiven(Said(s, id).failedTries, given, fact)
            && match RememberFact(s, id, unsentSince, given)
            case Err(_) => id !in s.rows || MayNotBe(id, given)
            case Ok(done) =>
              && id in s.rows && !MayNotBe(id, given)
              && (done.1 <==> unsentSince.Some? && s.rows[id].unsentSince == unsentSince && IsTrueOf(fact, s.rows[id]))
              && Said(done.0, other) == if other == id && done.1 then WithFact(Said(s, id), fact).(unsentSince := unsentSince) else Said(s, other)
  {
    hide SplitByStanding, Changed, Said, Learn, IsTrueOf, WithFact;
    if id in s.rows && !IsNoFact(id, given) {
      SaidIsSplit(s, id);
      LearntIff(Kept(s, id), s.rows[id], unsentSince, FactOf(Said(s, id), given));
      TakeAwayChangesNoAnswer(s, id, other);
      match Learn(s.rows[id], Said(s, id), unsentSince, FactOf(Said(s, id), given)) {
        case Some(learnt) => SaidAfter(s, id, learnt, other);
        case None =>
      }
    }
  }

  /** A file that fits is not refused for space any more, and one that does not is refused for the space there is now. */
  lemma {:induction false} FitAnswers(s: Store, freeSpace: nat, items: seq<ItemId>, id: ItemId)
    requires OfRows(s) && forall i <- items :: i in s.rows
    ensures Said(ForgetFitting(s, freeSpace, items), id) == if id in items then Fitted(Said(s, id), freeSpace).WithStampOfFacts() else Said(s, id)
    ensures var was, now := Said(s, id), Said(ForgetFitting(s, freeSpace, items), id);
            && now.uploadSession == was.uploadSession && now.failedTries == was.failedTries && now.refusal == was.refusal
            && now.takenName == was.takenName && now.temporaryName == was.temporaryName
            && now.spaceRefusal == (if id !in items || was.spaceRefusal.None? then was.spaceRefusal
                                    else if was.spaceRefusal.value.content.size <= freeSpace then None
                                    else Some(SpaceRefusal(was.spaceRefusal.value.content, freeSpace)))
    ensures ForgetFitting(s, freeSpace, items).rows == s.rows
  {
    hide SplitByStanding, Changed, Said, OfRows;
    if items == [] {
    } else {
      var before, last := items[..|items| - 1], items[|items| - 1];
      FitAnswers(s, freeSpace, before, id);
      FitAnswers(s, freeSpace, before, last);
      var u := ForgetFitting(s, freeSpace, before);
      assert items == before + [last];
      FittedIsSaid(u, last, freeSpace, id);
      ChangedRows(u, last, Fitted(Said(u, last), freeSpace));
      if last in before {
        FittedTwice(Said(s, last), freeSpace);
      }
    }
  }

  lemma ChangedRows(s: Store, id: ItemId, memory: ItemMemory)
    ensures Changed(s, id, memory).rows == s.rows
  {
  }

  lemma FittedIsSaid(s: Store, id: ItemId, freeSpace: nat, other: ItemId)
    requires id in s.rows
    ensures Said(Changed(s, id, Fitted(Said(s, id), freeSpace)), other) ==
            if other == id then Fitted(Said(s, id), freeSpace).WithStampOfFacts() else Said(s, other)
  {
    hide SplitByStanding, Changed, Said;
    SaidAgain(s, id);
    LessIsSaid(s, id, Fitted(Said(s, id), freeSpace), other);
  }

  lemma FittedTwice(memory: ItemMemory, freeSpace: nat)
    ensures Fitted(Fitted(memory, freeSpace).WithStampOfFacts(), freeSpace).WithStampOfFacts() == Fitted(memory, freeSpace).WithStampOfFacts()
  {
  }

  // ---------------------------------------------------------------- a binding that moves

  lemma KeptAfterKept(s: Store, id: ItemId, memory: ItemMemory, other: ItemId)
    ensures Kept(ChangeKept(s, id, memory), other) ==
            if other != id then Kept(s, other) else if memory == Kept(s, id) then memory else memory.WithStampOfFacts()
    ensures ChangeKept(s, id, memory).rows == s.rows
  {
  }

  lemma DroppedIs(s: Store, id: ItemId, other: ItemId)
    ensures Kept(DropFactsOf(s, id), other) == if other == id then NOTHING else Kept(s, other)
    ensures DropFactsOf(s, id).rows == s.rows
  {
  }

  /** An item that is given a binding keeps its temporary name, and nothing learnt of it as one OneDrive did not have. */
  lemma GivenBindingAnswers(s: Store, id: ItemId, other: ItemId)
    ensures Kept(GiveBinding(s, id), other) == if other == id then NOTHING.(temporaryName := Kept(s, id).temporaryName) else Kept(s, other)
  {
  }

  lemma DropAnswersIs(s: Store, id: ItemId, directory: ItemId, other: ItemId)
    ensures other != id ==> Kept(DropAnswers(s, id, directory), other) == Kept(s, other)
    ensures Kept(DropAnswers(s, id, directory), id) == DropAnswersOfDirectory(Kept(s, id), directory)
  {
  }

  lemma DroppedHasNone(memory: ItemMemory, directory: ItemId)
    ensures !AnswersIn(DropAnswersOfDirectory(memory, directory), directory)
    ensures DropAnswersOfDirectory(DropAnswersOfDirectory(memory, directory), directory) == DropAnswersOfDirectory(memory, directory)
  {
  }

  lemma {:induction false} AllDropped(s: Store, directory: ItemId, items: seq<ItemId>, id: ItemId)
    ensures Kept(DropAnswersOf(s, directory, items), id) == if id in items then DropAnswersOfDirectory(Kept(s, id), directory) else Kept(s, id)
  {
    hide DropAnswers, DropAnswersOfDirectory;
    if items != [] {
      var before, last := items[..|items| - 1], items[|items| - 1];
      AllDropped(s, directory, before, id);
      AllDropped(s, directory, before, last);
      assert items == before + [last];
      DropAnswersIs(DropAnswersOf(s, directory, before), last, directory, id);
      DroppedHasNone(Kept(s, last), directory);
    }
  }

  /** The store after a binding moved, before the answers about the directory are dropped. */
  function Moved(s: Store, from: ItemId, to: ItemId): Store {
    var u, name := DropFactsOf(DropFactsOf(s, from), to), NameAfterMove(s, from, to);
    if name.Some? then ChangeKept(u, to, Kept(u, to).(temporaryName := name)) else u
  }

  /**
    After a binding moved both rows have lost the facts of their changes, the taker has the
    temporary name, and no memory holds a place in the directory that lost its binding. The
    rest is kept as it was.
  */
  lemma FollowAnswers(s: Store, from: ItemId, to: ItemId, inDirectory: seq<ItemId>, id: ItemId)
    requires from != to && Lists(inDirectory, Moved(s, from, to), (m: ItemMemory) => AnswersIn(m, from))
    ensures var u := FollowBinding(s, from, to, inDirectory);
            && Kept(u, from) == NOTHING
            && Kept(u, to) == NOTHING.(temporaryName := NameAfterMove(s, from, to))
            && !AnswersIn(Kept(u, id), from)
            && (id != from && id != to ==> Kept(u, id) == if AnswersIn(Kept(s, id), from) then DropAnswersOfDirectory(Kept(s, id), from) else Kept(s, id))
  {
    hide DropAnswersOf, DropAnswersOfDirectory, NameAfterMove;
    MovedIs(s, from, to, id);
    MovedIs(s, from, to, from);
    MovedIs(s, from, to, to);
    var v := Moved(s, from, to);
    ListedIff(v, inDirectory, from, id);
    ListedIff(v, inDirectory, from, from);
    ListedIff(v, inDirectory, from, to);
    hide Moved, Lists, AnswersIn;
    AllDropped(v, from, inDirectory, id);
    AllDropped(v, from, inDirectory, from);
    AllDropped(v, from, inDirectory, to);
    DroppedHasNone(Kept(v, id), from);
    FollowUnfolds(s, from, to, inDirectory);
    KeptMoves(DropAnswersOf(v, from, inDirectory), from, to, id);
    KeptMoves(DropAnswersOf(v, from, inDirectory), from, to, from);
    KeptMoves(DropAnswersOf(v, from, inDirectory), from, to, to);
  }

  lemma FollowUnfolds(s: Store, from: ItemId, to: ItemId, inDirectory: seq<ItemId>)
    ensures FollowBinding(s, from, to, inDirectory) == MoveEmptyFiles(DropAnswersOf(Moved(s, from, to), from, inDirectory), from, to)
  {
  }

  lemma KeptMoves(s: Store, from: ItemId, to: ItemId, id: ItemId)
    ensures Kept(MoveEmptyFiles(s, from, to), id) == Kept(s, id)
  {
  }

  lemma NameHasNoAnswers(name: Option<TemporaryName>, directory: ItemId)
    ensures !AnswersIn(NOTHING.(temporaryName := name), directory) && NOTHING.(temporaryName := name).WithStampOfFacts() == NOTHING.(temporaryName := name)
  {
  }

  lemma MovedIs(s: Store, from: ItemId, to: ItemId, id: ItemId)
    requires from != to
    ensures Kept(Moved(s, from, to), id) ==
            if id == from then NOTHING else if id == to then NOTHING.(temporaryName := NameAfterMove(s, from, to)) else Kept(s, id)
    ensures !AnswersIn(NOTHING, from) && !AnswersIn(NOTHING.(temporaryName := NameAfterMove(s, from, to)), from)
  {
    hide DropFactsOf, NameAfterMove, ChangeKept, Kept;
    var t := DropFactsOf(s, from);
    var u := DropFactsOf(t, to);
    DroppedIs(s, from, id);
    DroppedIs(t, to, id);
    DroppedIs(t, to, to);
    NameHasNoAnswers(NameAfterMove(s, from, to), from);
    NameHasNoAnswers(None, from);
    KeptAfterKept(u, to, Kept(u, to).(temporaryName := NameAfterMove(s, from, to)), id);
  }

  lemma ListedIff(s: Store, items: seq<ItemId>, directory: ItemId, id: ItemId)
    requires Lists(items, s, (m: ItemMemory) => AnswersIn(m, directory))
    ensures id in items <==> AnswersIn(Kept(s, id), directory)
  {
  }
}
