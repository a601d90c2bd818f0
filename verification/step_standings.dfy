/** A session whose bytes the file has no more: over every run it is not gone on with until it is given anew. */
module StepStandings {
  import opened Wrappers
  import opened ItemTree
  import opened ItemTable
  import opened StepFacts
  import opened StepMemories
  import opened StepSessions
  import opened StepAnswers
  import opened StepRuns

  /** No session of the item is answered that was not before. */
  ghost predicate SaysNoMore(s: Store, u: Store, id: ItemId) {
    forall address: Address :: SaidAt(u, id, address) ==> SaidAt(s, id, address)
  }

  /** The event may make the row say a session: one is given, its row is written, or its bytes are told by another name. */
  predicate MaySay(event: Event, id: ItemId) {
    match event
    case GiveSession(other, _, _) => other == id
    case RowWritten(other, _) => other == id
    case ContentTold(other, _, _) => other == id
    case _ => false
  }

  // ---------------------------------------------------------------- the parts of an operation

  lemma SameSaysNoMore(s: Store, u: Store, id: ItemId)
    requires Said(u, id).uploadSession.Some? ==> Said(u, id).uploadSession == Said(s, id).uploadSession
    ensures SaysNoMore(s, u, id)
  {
  }

  lemma SaysNoMoreThen(s: Store, u: Store, v: Store, id: ItemId)
    requires SaysNoMore(s, u, id) && SaysNoMore(u, v, id)
    ensures SaysNoMore(s, v, id)
  {
    hide SaidAt;
  }

  /** What is kept of a session is as it was, but for where its empty file is, or it is kept no more. */
  ghost predicate KeepsNoMore(s: Store, u: Store, id: ItemId) {
    && (id in u.rows ==> id in s.rows && u.rows[id] == s.rows[id])
    && (Kept(u, id).uploadSession.Some? ==>
          && Kept(s, id).uploadSession.Some? && Kept(u, id).unsentSince == Kept(s, id).unsentSince
          && Kept(u, id).uploadSession.value.address == Kept(s, id).uploadSession.value.address
          && Kept(u, id).uploadSession.value.content == Kept(s, id).uploadSession.value.content)
  }

  lemma KeptSaysNoMore(s: Store, u: Store, id: ItemId)
    requires KeepsNoMore(s, u, id)
    ensures SaysNoMore(s, u, id)
  {
    if id in u.rows {
      SaidIff(Kept(u, id), u.rows[id]);
      SaidIff(Kept(s, id), s.rows[id]);
    }
    hide SplitByStanding, Kept;
  }

  lemma KeepsNoMoreThen(s: Store, u: Store, v: Store, id: ItemId)
    requires KeepsNoMore(s, u, id) && KeepsNoMore(u, v, id)
    ensures KeepsNoMore(s, v, id)
  {
    hide Kept;
  }

  /** What is kept of one item is written, of its session no more than was. */
  lemma WriteKeepsNoMore(s: Store, i: ItemId, memory: ItemMemory, id: ItemId)
    requires memory.uploadSession.None? || (memory.uploadSession == Kept(s, i).uploadSession && memory.unsentSince == Kept(s, i).unsentSince)
    ensures KeepsNoMore(s, ChangeKept(s, i, memory), id)
  {
    KeptAfterKept(s, i, memory, id);
    hide ChangeKept, Kept;
  }

  lemma ChangedSaysNoMore(s: Store, i: ItemId, memory: ItemMemory, id: ItemId)
    requires OfRows(s) && (memory.uploadSession.None? || memory.uploadSession == Said(s, i).uploadSession)
    ensures SaysNoMore(s, Changed(s, i, memory), id)
  {
    hide Changed, Said, SplitByStanding;
    if i in s.rows {
      SaidAfter(s, i, memory, id);
      SaidIff(memory, s.rows[i]);
    } else {
      SaidOfNoRow(s, i, memory, id);
    }
  }

  lemma {:induction false} TakeAwayAllChangesNoAnswer(s: Store, items: seq<ItemId>, id: ItemId)
    requires OfRows(s)
    ensures Said(TakeAwayGoneOf(s, items), id) == Said(s, id)
  {
    hide TakeAwayGone, Said, OfRows;
    if items != [] {
      var u := TakeAwayGoneOf(s, items[..|items| - 1]);
      TakeAwayAllKeeps(s, items[..|items| - 1]);
      SafeIsOfRows(s, u, {});
      TakeAwayAllChangesNoAnswer(s, items[..|items| - 1], id);
      TakeAwayChangesNoAnswer(u, items[|items| - 1], id);
    }
  }

  lemma OpeningSaysNoMore(s: Store, i: ItemId, place: FoldedPlace, holders: seq<ItemId>, id: ItemId)
    requires OfRows(s)
    ensures SaysNoMore(s, Opening(s, i, place, holders), id)
  {
    hide TakeAwayGone, TakeAwayGoneOf, Said, OfRows;
    var u := TakeAwayGone(s, i);
    TakeAwayKeeps(s, i);
    SafeIsOfRows(s, u, {});
    TakeAwayChangesNoAnswer(s, i, id);
    TakeAwayAllChangesNoAnswer(u, holders, id);
    SameSaysNoMore(s, Opening(s, i, place, holders), id);
  }

  lemma CancelledSaysNoMore(s: Store, address: Address, holders: seq<ItemId>, id: ItemId)
    requires OfRows(s)
    ensures SaysNoMore(s, ForgetCancellation(s, address, holders), id)
  {
    hide TakeAwayGoneOf, Said, Without;
    var t := ForgetCancel(s, address);
    var u := TakeAwayGoneOf(t, holders);
    TakeAwayAllChangesNoAnswer(t, holders, id);
    SaidIsSame(s, t, id);
    SaidIsSame(u, ForgetCancel(u, address), id);
    SameSaysNoMore(s, ForgetCancellation(s, address, holders), id);
  }

  lemma {:induction false} FitSaysNoMore(s: Store, freeSpace: nat, items: seq<ItemId>, id: ItemId)
    requires OfRows(s)
    ensures SaysNoMore(s, ForgetFitting(s, freeSpace, items), id)
  {
    hide Changed, Said, OfRows, SaysNoMore;
    if items == [] {
      SameSaysNoMore(s, s, id);
    } else {
      var u, last := ForgetFitting(s, freeSpace, items[..|items| - 1]), items[|items| - 1];
      FitKeeps(s, freeSpace, items[..|items| - 1]);
      SafeIsOfRows(s, u, {});
      FitSaysNoMore(s, freeSpace, items[..|items| - 1], id);
      ChangedSaysNoMore(u, last, Fitted(Said(u, last), freeSpace), id);
      SaysNoMoreThen(s, u, ForgetFitting(s, freeSpace, items), id);
    }
  }

  lemma {:induction false} RefusalsSayNoMore(s: Store, items: seq<ItemId>, id: ItemId)
    requires OfRows(s)
    ensures SaysNoMore(s, ForgetRefusals(s, items), id)
  {
    hide Changed, Said, OfRows, SaysNoMore;
    if items == [] {
      SameSaysNoMore(s, s, id);
    } else {
      var u, last := ForgetRefusals(s, items[..|items| - 1]), items[|items| - 1];
      RefusalsKeep(s, items[..|items| - 1]);
      SafeIsOfRows(s, u, {});
      RefusalsSayNoMore(s, items[..|items| - 1], id);
      ChangedSaysNoMore(u, last, Said(u, last).(refusal := None), id);
      SaysNoMoreThen(s, u, ForgetRefusals(s, items), id);
    }
  }

  lemma FactSaysNoMore(s: Store, i: ItemId, unsentSince: Option<nat>, given: Given, id: ItemId)
    requires OfRows(s) && !(given.GivenFact? && given.fact.SessionFact?)
    ensures match RememberFact(s, i, unsentSince, given)
            case Ok(done) => SaysNoMore(s, done.0, id)
            case Err(_) => true
  {
    hide SplitByStanding, Changed, Said, TakeAwayGone, SaysNoMore;
    if i in s.rows && !IsNoFact(i, given) {
      var said := Said(s, i);
      match Learn(s.rows[i], said, unsentSince, FactOf(said, given)) {
        case Some(learnt) => ChangedSaysNoMore(s, i, learnt, id);
        case None =>
          TakeAwayChangesNoAnswer(s, i, id);
          SameSaysNoMore(s, TakeAwayGone(s, i), id);
      }
    }
  }

  lemma ConfirmedSaysNoMore(s: Store, i: ItemId, request: Confirmed, id: ItemId)
    requires OfRows(s)
    ensures SaysNoMore(s, ForgetConfirmedRequest(s, i, request), id)
  {
    hide Said, ForgetConfirmedRequest, OfRows;
    if i in s.rows {
      ConfirmedAnswers(s, i, request, id);
      SessionIsKept(Said(s, i), request);
      SameSaysNoMore(s, ForgetConfirmedRequest(s, i, request), id);
    } else {
      ConfirmedOfNoRow(s, i, request, id);
    }
  }

  lemma ConfirmedOfNoRow(s: Store, i: ItemId, request: Confirmed, id: ItemId)
    requires OfRows(s) && i !in s.rows
    ensures SaysNoMore(s, ForgetConfirmedRequest(s, i, request), id)
  {
    hide TakeAwayGone, ForgetEnded, Said;
    NothingKeptOfNoRow(s, i);
    assert ForgetConfirmed(NOTHING, request) == NOTHING;
    if EndedBy(request).Some? {
      EndedAnswers(s, i, EndedBy(request).value, id);
    } else {
      TakeAwayChangesNoAnswer(s, i, id);
    }
    SameSaysNoMore(s, ForgetConfirmedRequest(s, i, request), id);
  }

  lemma GivenBindingSaysNoMore(s: Store, i: ItemId, id: ItemId)
    ensures SaysNoMore(s, GiveBinding(s, i), id)
  {
    GivenBindingAnswers(s, i, id);
    GivenBindingRows(s, i);
    hide GiveBinding, Kept;
    KeptSaysNoMore(s, GiveBinding(s, i), id);
  }

  lemma GivenBindingRows(s: Store, i: ItemId)
    ensures GiveBinding(s, i).rows == s.rows
  {
    DroppedIs(s, i, i);
    hide DropFactsOf, Kept;
    var u := DropFactsOf(s, i);
    KeptAfterKept(u, i, Kept(u, i).(temporaryName := Kept(s, i).temporaryName), i);
  }

  lemma DroppedKeepsNoMore(s: Store, i: ItemId, id: ItemId)
    ensures KeepsNoMore(s, DropFactsOf(s, i), id)
  {
    DroppedIs(s, i, id);
    hide DropFactsOf, Kept;
  }

  lemma {:induction false} DropAnswersKeepsNoMore(s: Store, directory: ItemId, items: seq<ItemId>, id: ItemId)
    ensures KeepsNoMore(s, DropAnswersOf(s, directory, items), id)
  {
    AllDropped(s, directory, items, id);
    DropAnswersRows(s, directory, items);
    hide DropAnswersOf, Kept;
  }

  lemma {:induction false} DropAnswersRows(s: Store, directory: ItemId, items: seq<ItemId>)
    ensures DropAnswersOf(s, directory, items).rows == s.rows
  {
    if items != [] {
      DropAnswersRows(s, directory, items[..|items| - 1]);
    }
  }

  lemma FollowSaysNoMore(s: Store, from: ItemId, to: ItemId, inDirectory: seq<ItemId>, id: ItemId)
    ensures SaysNoMore(s, FollowBinding(s, from, to, inDirectory), id)
  {
    hide DropFactsOf, ChangeKept, DropAnswersOf, KeepsNoMore, NameAfterMove, Kept;
    var name := NameAfterMove(s, from, to);
    var t := DropFactsOf(s, from);
    var u := DropFactsOf(t, to);
    var named := Kept(u, to).(temporaryName := name);
    var v := if name.Some? then ChangeKept(u, to, named) else u;
    var w := DropAnswersOf(v, from, inDirectory);
    DroppedKeepsNoMore(s, from, id);
    DroppedKeepsNoMore(t, to, id);
    KeepsNoMoreThen(s, t, u, id);
    WriteKeepsNoMore(u, to, named, id);
    SameKeepsNoMore(u, u, id);
    KeepsNoMoreThen(s, u, v, id);
    DropAnswersKeepsNoMore(v, from, inDirectory, id);
    KeepsNoMoreThen(s, v, w, id);
    KeptMoves(w, from, to, id);
    SameKeepsNoMore(w, MoveEmptyFiles(w, from, to), id);
    KeepsNoMoreThen(s, w, MoveEmptyFiles(w, from, to), id);
    KeptSaysNoMore(s, MoveEmptyFiles(w, from, to), id);
  }

  lemma SameKeepsNoMore(s: Store, u: Store, id: ItemId)
    requires u.rows == s.rows && Kept(u, id) == Kept(s, id)
    ensures KeepsNoMore(s, u, id)
  {
  }

  lemma RestSaysNoMore(s: Store, event: Event, id: ItemId)
    requires event.RetryNow? || event.RowDeleted? || (event.RowWritten? && event.id != id) || (event.ContentTold? && event.id != id)
    ensures SaysNoMore(s, Step(s, event), id)
  {
    KeptSaysNoMore(s, Step(s, event), id) by {
      match event {
        case RetryNow =>
        case RowDeleted(i) => DeletedKeepsNoMore(s, i, id);
        case RowWritten(i, row) =>
        case ContentTold(i, from, to) => KeptAfterKept(s, i, CarryContent(Kept(s, i), from, to), id);
      }
    }
    hide SaysNoMore;
  }

  lemma DeletedKeepsNoMore(s: Store, i: ItemId, id: ItemId)
    ensures KeepsNoMore(s, DeleteRow(s, i), id)
  {
  }

  // ---------------------------------------------------------------- each event, and whole runs

  lemma StepSaysNoMore(s: Store, event: Event, id: ItemId)
    requires OfRows(s) && Fits(s, event) && !MaySay(event, id)
    ensures SaysNoMore(s, Step(s, event), id)
  {
    hide SaysNoMore, OfRows, Opening, RememberSession, Advance, AbandonSession, ForgetEnded, ForgetCancellation, RememberFact, ForgetFitting,
         ForgetRefusals, ForgetConfirmedRequest, GiveBinding, FollowBinding, PutRow, DeleteRow, ClearNextTries, CarryContentOf, Lists, Said;
    var u := Step(s, event);
    match event
    case Open(i, place, holders) => OpeningSaysNoMore(s, i, place, holders, id);
    case GiveSession(i, unsentSince, session) =>
      RememberAnswers(s, i, unsentSince, session, id);
      SameSaysNoMore(s, u, id);
    case AdvanceTo(i, address, nextOffset, expiresAt) => AdvancedSaysNoMore(s, i, address, nextOffset, expiresAt, id);
    case GiveUpSession(i) =>
      GiveUpAnswers(s, i, id);
      SameSaysNoMore(s, u, id);
    case SessionEnded(i, address) =>
      EndedAnswers(s, i, address, id);
      SameSaysNoMore(s, u, id);
    case SessionCancelled(address, holders) => CancelledSaysNoMore(s, address, holders, id);
    case GiveFact(i, unsentSince, given) =>
      FactSaysNoMore(s, i, unsentSince, given, id);
      SameSaysNoMore(s, s, id);
    case GiveTemporaryName(i, name) => NameSaysNoMore(s, i, name, id);
    case FreeSpace(freeSpace, items) => FitSaysNoMore(s, freeSpace, items, id);
    case RefusalsVoid(_, items) => RefusalsSayNoMore(s, items, id);
    case RequestConfirmed(i, request) => ConfirmedSaysNoMore(s, i, request, id);
    case BindingGiven(i) => GivenBindingSaysNoMore(s, i, id);
    case BindingMoved(from, to, inDirectory) => FollowSaysNoMore(s, from, to, inDirectory, id);
    case _ => RestSaysNoMore(s, event, id);
  }

  lemma AdvancedSaysNoMore(s: Store, i: ItemId, address: Address, nextOffset: nat, expiresAt: Option<int>, id: ItemId)
    requires OfRows(s)
    ensures SaysNoMore(s, Advance(s, i, address, nextOffset, expiresAt).0, id)
  {
    AdvanceAnswers(s, i, address, nextOffset, expiresAt, id);
    hide Advance, Said;
  }

  lemma NameSaysNoMore(s: Store, i: ItemId, name: TemporaryName, id: ItemId)
    requires OfRows(s)
    ensures SaysNoMore(s, match RememberTemporaryName(s, i, name) case Ok(done) => done case Err(_) => s, id)
  {
    hide Changed, Said, SaysNoMore;
    SameSaysNoMore(s, s, id);
    ChangedSaysNoMore(s, i, Said(s, i).(temporaryName := Some(name)), id);
  }

  ghost predicate NoneMaySay(events: seq<Event>, id: ItemId) {
    forall event <- events :: !MaySay(event, id)
  }

  lemma {:induction false} RunSaysNoMore(s: Store, events: seq<Event>, id: ItemId)
    requires OfRows(s) && Possible(s, events) && NoneMaySay(events, id)
    ensures OfRows(Run(s, events)) && SaysNoMore(s, Run(s, events), id)
    decreases |events|
  {
    hide OfRows, SaysNoMore, Step, Fits, Has, InOnePlace, GivenBy, ReportedBy;
    if events == [] {
      SameSaysNoMore(s, s, id);
    } else {
      assert events[0] in events;
      StepKeeps(s, events[0]);
      FollowsIsOfRows(s, Step(s, events[0]), events[0]);
      StepSaysNoMore(s, events[0], id);
      RunSaysNoMore(Step(s, events[0]), events[1..], id);
      SaysNoMoreThen(s, Step(s, events[0]), Run(s, events), id);
    }
  }

  lemma FollowsIsOfRows(s: Store, u: Store, event: Event)
    requires Follows(s, u, event)
    ensures OfRows(u)
  {
  }

  /**
    A file's row is written without the bytes of the session that is kept of it. Whatever comes
    after, but a session of this file given anew, its row written again or its bytes told by another
    name: advanced then, the session is abandoned, and its address left to cancel, unless another item keeps it.
  */
  lemma WrittenOverIsAbandoned(s: Store, id: ItemId, row: Item, events: seq<Event>, address: Address, nextOffset: nat, expiresAt: Option<int>)
    requires OfRows(s) && KeptBy(s, id, address)
    requires var content := s.kept[id].uploadSession.value.content; row.localContent != Some(content) && row.contentBeforeWrite != Some(content)
    requires Possible(PutRow(s, id, row), events) && NoneMaySay(events, id)
    ensures var (u, standing) := Advance(Run(PutRow(s, id, row), events), id, address, nextOffset, expiresAt);
            && !standing.Continued?
            && (standing.Abandoned? ==> Cancelled(u, address))
            && (standing.OfAnotherItem? ==> exists other :: other != id && KeptBy(Run(PutRow(s, id, row), events), other, address))
  {
    var t := PutRow(s, id, row);
    var w := Run(t, events);
    assert OfRows(t);
    SaidIff(Kept(t, id), row);
    assert !SaidAt(t, id, address);
    hide Run, PutRow, Said, Kept, SplitByStanding, Advance, Cancelled, KeptBy, OfRows;
    RunSaysNoMore(t, events, id);
    AdvanceKeeps(w, id, address, nextOffset, expiresAt);
    AdvanceIff(w, id, address, nextOffset, expiresAt);
  }
}
