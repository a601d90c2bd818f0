/** What each other operation leaves in the memories, fact by fact and in their own fields. */
module StepEffects {
  import opened Wrappers
  import opened ItemTree
  import opened ItemTable
  import opened StepFacts
  import opened StepMemories
  import opened StepSessions
  import opened StepAnswers
  import opened StepRuns

  /** The five facts of an unsent change are the same. */
  ghost predicate SameFacts(a: ItemMemory, b: ItemMemory) {
    a.uploadSession == b.uploadSession && a.failedTries == b.failedTries && a.spaceRefusal == b.spaceRefusal && a.refusal == b.refusal && a.takenName == b.takenName
  }

  /** The name is at the place: in its directory, under it. */
  ghost predicate IsNameAt(name: TemporaryName, place: ItemPlace) {
    name.toward.parent == place.parent && name.name == place.name
  }

  /**
    A confirmed request: no tries are counted any more; the session that ended with an upload is not
    answered; a move leaves the taken name of another place and the temporary name of this one alone.
  */
  lemma ConfirmedLeaves(s: Store, id: ItemId, request: Confirmed)
    requires OfRows(s) && id in s.rows
    ensures var was, now := Said(s, id), Said(ForgetConfirmedRequest(s, id, request), id);
            && now.failedTries.None? && now.spaceRefusal == was.spaceRefusal && now.refusal == was.refusal
            && now.uploadSession == (if request.Upload? && request.endedSession.Some? && was.uploadSession.Some? && was.uploadSession.value.address == request.endedSession.value
                                     then None else was.uploadSession)
            && now.takenName == (if request.MovedTo? && was.takenName.Some? && was.takenName.value.place == request.place then None else was.takenName)
            && now.temporaryName == (if request.MovedTo? && was.temporaryName.Some? && !IsNameAt(was.temporaryName.value, request.place) then None else was.temporaryName)
  {
    ConfirmedAnswers(s, id, request, id);
    hide ForgetConfirmedRequest, Said;
  }

  /** The refusals of these items end, whatever they were for, and nothing else changes. */
  lemma {:induction false} RefusalsEnd(s: Store, items: seq<ItemId>, id: ItemId)
    requires OfRows(s) && forall i <- items :: i in s.rows
    ensures OfRows(ForgetRefusals(s, items)) && ForgetRefusals(s, items).rows == s.rows
    ensures var was, now := Said(s, id), Said(ForgetRefusals(s, items), id);
            && now.uploadSession == was.uploadSession && now.failedTries == was.failedTries && now.spaceRefusal == was.spaceRefusal
            && now.takenName == was.takenName && now.temporaryName == was.temporaryName
            && now.refusal == if id in items then None else was.refusal
  {
    hide SplitByStanding, Changed, Said, OfRows;
    if items != [] {
      var before, last := items[..|items| - 1], items[|items| - 1];
      assert items == before + [last];
      var u := ForgetRefusals(s, before);
      RefusalsEnd(s, before, id);
      RefusalsEnd(s, before, last);
      SaidAgain(u, last);
      LessIsSaid(u, last, Said(u, last).(refusal := None), id);
      ChangedRows(u, last, Said(u, last).(refusal := None));
      RefusalsKeep(s, items);
      SafeIsOfRows(s, ForgetRefusals(s, items), {});
    }
  }

  /** Every next try is due at once, as many as were counted, and nothing else changes. */
  lemma TriesAreDue(s: Store, id: ItemId)
    ensures var u := ClearNextTries(s);
            && u.rows == s.rows && u.cancellations == s.cancellations
            && var was, now := Kept(s, id), Kept(u, id);
            && now.uploadSession == was.uploadSession && now.spaceRefusal == was.spaceRefusal && now.refusal == was.refusal && now.takenName == was.takenName
            && now.temporaryName == was.temporaryName && now.unsentSince == was.unsentSince
            && (was.failedTries.None? <==> now.failedTries.None?)
            && (was.failedTries.Some? ==>
                  now.failedTries.value.nextTryAt.None? && now.failedTries.value.count == was.failedTries.value.count
                  && now.failedTries.value.lastFailure == was.failedTries.value.lastFailure)
  {
  }

  /** A temporary name is kept with its item, but for one with no row and a name that is none; nothing else changes. */
  lemma NameIsKept(s: Store, id: ItemId, name: TemporaryName, other: ItemId)
    requires OfRows(s)
    ensures match RememberTemporaryName(s, id, name)
            case Err(_) => id !in s.rows || name.name == ""
            case Ok(u) =>
              && id in s.rows && name.name != ""
              && SameFacts(Said(u, other), Said(s, other))
              && Said(u, other).temporaryName == if other == id then Some(name) else Said(s, other).temporaryName
  {
    hide SplitByStanding, Changed, Said;
    if id in s.rows {
      SaidAgain(s, id);
      LessIsSaid(s, id, Said(s, id).(temporaryName := Some(name)), other);
    }
  }

  /** Whatever holds a content of the item holds its new name, and nothing else changes. */
  lemma ContentIsCarried(s: Store, id: ItemId, from: ContentVersion, to: ContentVersion, other: ItemId)
    ensures var was, now := Kept(s, other), Kept(CarryContentOf(s, id, from, to), other);
            && CarryContentOf(s, id, from, to).rows == s.rows
            && (other != id ==> now == was)
            && now.failedTries == was.failedTries && now.takenName == was.takenName && now.temporaryName == was.temporaryName
            && (other == id && was.uploadSession.Some? ==>
                  now.uploadSession == Some(was.uploadSession.value.(content := if was.uploadSession.value.content == from then to else was.uploadSession.value.content)))
            && (other == id && was.spaceRefusal.Some? ==>
                  now.spaceRefusal == Some(was.spaceRefusal.value.(content := if was.spaceRefusal.value.content == from then to else was.spaceRefusal.value.content)))
            && (other == id && was.refusal.Some? ==>
                  now.refusal == Some(was.refusal.value.(version :=
                    match was.refusal.value.version
                    case ShownVersion(place, Some(content)) => ShownVersion(place, Some(if content == from then to else content))
                    case version => version)))
            && (was.uploadSession.None? ==> now.uploadSession.None?) && (was.spaceRefusal.None? ==> now.spaceRefusal.None?) && (was.refusal.None? ==> now.refusal.None?)
  {
  }

  /** The place is in the directory. */
  ghost predicate Lies(place: ItemPlace, directory: ItemId) {
    place.parent == directory
  }

  ghost predicate SessionIn(memory: ItemMemory, directory: ItemId) {
    memory.uploadSession.Some? && memory.uploadSession.value.emptyFile.Some? && Lies(memory.uploadSession.value.emptyFile.value.place, directory)
  }

  ghost predicate TakenIn(memory: ItemMemory, directory: ItemId) {
    memory.takenName.Some? && Lies(memory.takenName.value.place, directory)
  }

  ghost predicate RefusedIn(memory: ItemMemory, directory: ItemId) {
    memory.refusal.Some? && memory.refusal.value.version.ShownVersion? && Lies(memory.refusal.value.version.place, directory)
  }

  /** The names and refusals of places in a directory are gone. */
  ghost predicate HasLeft(was: ItemMemory, now: ItemMemory, directory: ItemId) {
    && now.failedTries == was.failedTries && now.spaceRefusal == was.spaceRefusal && now.temporaryName == was.temporaryName
    && now.takenName == (if TakenIn(was, directory) then None else was.takenName)
    && now.refusal == (if RefusedIn(was, directory) then None else was.refusal)
  }

  /**
    A binding moved from one row to another. Neither row keeps a fact of its change; the taker has the
    giver's temporary name, or its own where that is the place OneDrive has the item at; every other
    memory has lost the sessions, names and refusals of places in the giver, and nothing else.
  */
  lemma MovedBindingLeaves(s: Store, from: ItemId, to: ItemId, inDirectory: seq<ItemId>, id: ItemId)
    requires from != to && Lists(inDirectory, Moved(s, from, to), (m: ItemMemory) => AnswersIn(m, from))
    ensures var was, now := Kept(s, id), Kept(FollowBinding(s, from, to, inDirectory), id);
            && (id == from ==> SameFacts(now, NOTHING) && now.temporaryName.None?)
            && (id == to ==>
                  && SameFacts(now, NOTHING)
                  && now.temporaryName == (if Kept(s, from).temporaryName.Some? then Kept(s, from).temporaryName
                                           else if was.temporaryName.Some? && from in s.rows && s.rows[from].onedrivePlace.Some?
                                                   && IsNameAt(was.temporaryName.value, s.rows[from].onedrivePlace.value)
                                           then was.temporaryName else None))
            && (id != from && id != to && !(SessionIn(was, from) || TakenIn(was, from) || RefusedIn(was, from)) ==> now == was)
            && (id != from && id != to ==> HasLeft(was, now, from) && now.uploadSession == if SessionIn(was, from) then None else was.uploadSession)
  {
    FollowAnswers(s, from, to, inDirectory, id);
    DroppedIs(s, from, to);
    hide FollowBinding, DropFactsOf, Lists, Moved;
  }

  /** The sessions left to cancel are the same ones, and an empty file in the giver is in the taker. */
  lemma EmptyFilesFollow(s: Store, from: ItemId, to: ItemId, k: nat)
    requires k < |s.cancellations|
    ensures var u := MoveEmptyFiles(s, from, to);
            && u.rows == s.rows && u.kept == s.kept && |u.cancellations| == |s.cancellations|
            && var was, now := s.cancellations[k], u.cancellations[k];
            && now.address == was.address
            && now.emptyFile == if was.emptyFile.Some? && was.emptyFile.value.parent == from then Some(FoldedPlace(to, was.emptyFile.value.foldedName)) else was.emptyFile
  {
  }

  /** A row goes: its memory goes, and every other has lost the names and refusals of places in it, and its session's empty file there, but not the session. */
  lemma DeletedLeaves(s: Store, id: ItemId, other: ItemId)
    requires id in s.rows
    ensures var was, now := Kept(s, other), Kept(DeleteRow(s, id), other);
            && DeleteRow(s, id).rows == s.rows - {id}
            && (other == id ==> now == NOTHING)
            && (other != id ==>
                  && HasLeft(was, now, id) && (was.uploadSession.Some? <==> now.uploadSession.Some?)
                  && (was.uploadSession.Some? ==>
                        now.uploadSession.value == if SessionIn(was, id) then was.uploadSession.value.(emptyFile := None) else was.uploadSession.value))
  {
    assert other != id && other in s.kept ==> DeleteRow(s, id).kept[other] == WithoutDirectory(s.kept[other], id);
    hide Abandon, EmptyFileGone;
  }

  /** A session given has its empty file, but for one in a directory without a row. */
  lemma GivenIsKept(s: Store, id: ItemId, unsentSince: Option<nat>, given: UploadSession)
    requires OfRows(s)
    ensures var (u, standing) := RememberSession(s, id, unsentSince, given);
            standing.Continued? ==>
              Said(u, id).uploadSession == Some(if given.emptyFile.Some? && given.emptyFile.value.place.parent !in s.rows then given.(emptyFile := None) else given)
  {
    RememberAnswers(s, id, unsentSince, given, id);
    hide RememberSession, Said;
  }

  /** The cancel of an abandoned session tells its empty file, as OneDrive compares names. */
  lemma AbandonedIsTold(s: Store, session: UploadSession)
    ensures var u := Abandon(s, Some(session));
            !Cancelled(s, session.address) ==>
              && |u.cancellations| == |s.cancellations| + 1 && u.cancellations[..|s.cancellations|] == s.cancellations
              && var c := u.cancellations[|s.cancellations|];
              && c.address == session.address
              && c.emptyFile == if session.emptyFile.Some? then Some(FoldedPlace(session.emptyFile.value.place.parent, session.emptyFile.value.foldedName)) else None
    ensures Cancelled(s, session.address) ==> Abandon(s, Some(session)) == s
  {
  }
}
