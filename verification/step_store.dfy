/** What the steps remember, in its tables: every operation reads an item's memory, changes it and writes it. */
module StepStores {
  import opened Wrappers
  import opened ItemTree
  import opened ItemTable
  import opened StepFacts
  import opened StepMemories
  import Reasons

  /** A session found by the place of its empty file. */
  datatype EmptyFileSession =
    | ContinuedSession(item: ItemId, address: Address, expiresAt: Option<int>)
    | AbandonedSession(address: Address)

  class StepMemory {
    /** The rows of the items, and of each what is kept, and the cancels that are left to send. */
    var rows: Rows
    var kept: map<ItemId, ItemMemory>
    var cancellations: seq<Cancellation>

    function State(): Store
      reads this
    {
      Store(rows, kept, cancellations)
    }

    constructor (items: Rows)
      ensures State() == Store(items, map[], [])
    {
      rows, kept, cancellations := items, map[], [];
    }

    // -------------------------------------------------------------- statements

    method WriteMemory(id: ItemId, memory: ItemMemory)
      modifies this`kept
      ensures State() == Write(old(State()), id, memory)
    {
      var normal := memory.WithStampOfFacts();
      if normal == NOTHING {
        kept := kept - {id};
      } else {
        kept := kept[id := normal];
      }
    }

    method AbandonAt(address: Address, emptyFile: Option<FoldedPlace>)
      modifies this`cancellations
      ensures State() == AbandonAddress(old(State()), address, emptyFile)
    {
      var isThere := false;
      var i := 0;
      while i < |cancellations| && !isThere
        invariant 0 <= i <= |cancellations|
        invariant isThere <==> CancelledIn(cancellations[..i], address)
      {
        isThere := cancellations[i].address == address;
        assert cancellations[..i + 1] == cancellations[..i] + [cancellations[i]];
        i := i + 1;
      }
      assert isThere ==> CancelledIn(cancellations, address);
      assert !isThere ==> cancellations[..i] == cancellations;
      if !isThere {
        cancellations := cancellations + [Cancellation(address, emptyFile)];
      }
    }

    method AbandonKept(session: Option<UploadSession>)
      modifies this`cancellations
      ensures State() == Abandon(old(State()), session)
    {
      if session.Some? {
        AbandonAt(session.value.address, Folded(session.value.emptyFile));
      }
    }

    method ForgetCancelOf(address: Address)
      modifies this`cancellations
      ensures State() == ForgetCancel(old(State()), address)
    {
      cancellations := Without(cancellations, address);
    }

    /** Keeps this of an item, and leaves to cancel what its row does not say; `said` is the part it does. */
    method Change(id: ItemId, memory: ItemMemory)
      modifies this`kept, this`cancellations
      ensures State() == Changed(old(State()), id, memory)
    {
      if id !in rows {
        WriteMemory(id, NOTHING);
        return;
      }
      var was := Kept(State(), id);
      AbandonKept(GoneSession(State(), id));
      if memory != was {
        WriteMemory(id, memory);
      }
    }

    method ChangeWhatIsKept(id: ItemId, memory: ItemMemory)
      modifies this`kept
      ensures State() == ChangeKept(old(State()), id, memory)
    {
      if memory != Kept(State(), id) {
        WriteMemory(id, memory);
      }
    }

    // -------------------------------------------------------------- upload sessions

    method RememberUploadSession(id: ItemId, unsentSince: Option<nat>, given: UploadSession) returns (standing: Standing)
      modifies this`kept, this`cancellations
      ensures (State(), standing) == RememberSession(old(State()), id, unsentSince, given)
    {
      hide SplitByStanding, Learn, Changed, Abandon;
      var session := AtPlaceWithRow(State(), given);
      var said := Said(State(), id);
      if id in rows {
        var learnt := Learn(rows[id], said, unsentSince, SessionFact(session));
        if learnt.Some? {
          var earlier := said.uploadSession;
          if earlier.Some? && earlier.value.address != session.address {
            AbandonKept(earlier);
          }
          Change(id, learnt.value);
          return Continued;
        }
      }
      Change(id, said);
      AbandonKept(Some(session));
      return Abandoned;
    }

    method AdvanceUploadSession(id: ItemId, address: Address, nextOffset: nat, expiresAt: Option<int>) returns (standing: Standing)
      modifies this`kept, this`cancellations
      ensures (State(), standing) == Advance(old(State()), id, address, nextOffset, expiresAt)
    {
      hide SplitByStanding, Changed, AbandonAddress;
      if exists other <- kept :: other != id && KeptBy(State(), other, address) {
        return OfAnotherItem;
      }
      var said := Said(State(), id);
      if said.uploadSession.Some? && said.uploadSession.value.address == address {
        var session := said.uploadSession.value.(nextOffset := nextOffset, expiresAt := expiresAt);
        Change(id, said.(uploadSession := Some(session)));
        return Continued;
      }
      Change(id, said);
      AbandonAt(address, None);
      return Abandoned;
    }

    method AbandonUploadSession(id: ItemId)
      modifies this`kept, this`cancellations
      ensures State() == AbandonSession(old(State()), id)
    {
      hide SplitByStanding, Changed, Abandon;
      var said := Said(State(), id);
      AbandonKept(said.uploadSession);
      Change(id, said.(uploadSession := None));
    }

    method ForgetEndedUploadSession(id: ItemId, address: Address)
      modifies this`kept, this`cancellations
      ensures State() == ForgetEnded(old(State()), id, address)
    {
      hide SplitByStanding, Changed;
      if KeptBy(State(), id, address) {
        WriteMemory(id, kept[id].(uploadSession := None));
      }
      Change(id, Said(State(), id));
    }

    /** For each of the items: what its row denies goes. */
    method TakeAwayGoneOfAll(items: seq<ItemId>)
      modifies this`kept, this`cancellations
      ensures State() == TakeAwayGoneOf(old(State()), items)
    {
      hide Changed, Said;
      var k := 0;
      while k < |items|
        invariant 0 <= k <= |items|
        invariant State() == TakeAwayGoneOf(old(State()), items[..k])
      {
        Change(items[k], Said(State(), items[k]));
        k := k + 1;
        assert items[..k][..k - 1] == items[..k - 1];
      }
      assert items[..k] == items;
    }

    method ForgetUploadSessionCancellation(address: Address, holders: seq<ItemId>)
      modifies this`kept, this`cancellations
      ensures State() == ForgetCancellation(old(State()), address, holders)
    {
      hide TakeAwayGoneOf, Without;
      ForgetCancelOf(address);
      TakeAwayGoneOfAll(holders);
      ForgetCancelOf(address);
    }

    method RememberOpening(id: ItemId, place: FoldedPlace, holders: seq<ItemId>) returns (isKept: bool)
      modifies this`kept, this`cancellations
      ensures State() == Opening(old(State()), id, place, holders)
      ensures isKept <==> id in rows && place.parent in rows
    {
      hide TakeAwayGoneOf, Changed, Said;
      if id !in rows || place.parent !in rows {
        return false;
      }
      Change(id, Said(State(), id));
      TakeAwayGoneOfAll(holders);
      return true;
    }

    /**
      Every session with an empty file at this place: as continued, exactly those that are among
      an item's answers, and all others as abandoned.
    */
    method ListEmptyFileSessions(place: FoldedPlace, holders: seq<ItemId>) returns (sessions: seq<EmptyFileSession>)
      requires Lists(holders, State(), (m: ItemMemory) => EmptyFileAt(m) == Some(place))
      ensures forall id: ItemId, address: Address, expiresAt: Option<int> ::
                ContinuedSession(id, address, expiresAt) in sessions <==>
                var said := Said(State(), id);
                SaidAt(State(), id, address) && said.uploadSession.value.expiresAt == expiresAt && HasFileAt(said, place)
      ensures forall address: Address ::
                AbandonedSession(address) in sessions <==>
                  || (exists id: ItemId :: KeptBy(State(), id, address) && HasFileAt(Kept(State(), id), place) && !SaidAt(State(), id, address))
                  || Cancellation(address, Some(place)) in cancellations
    {
      sessions := [];
      var k := 0;
      while k < |holders|
        invariant 0 <= k <= |holders|
        invariant |sessions| == k && forall i :: 0 <= i < k ==> sessions[i] == SessionOf(State(), holders[i])
      {
        var session := kept[holders[k]].uploadSession.value;
        var isSaid := Said(State(), holders[k]).uploadSession.Some?;
        SaidIsKept(State(), holders[k]);
        sessions := sessions + [if isSaid then ContinuedSession(holders[k], session.address, session.expiresAt) else AbandonedSession(session.address)];
        k := k + 1;
      }
      ghost var ofItems := sessions;
      var i := 0;
      while i < |cancellations|
        invariant 0 <= i <= |cancellations|
        invariant sessions == ofItems + CancelledAt(cancellations[..i], place)
      {
        if cancellations[i].emptyFile == Some(place) {
          sessions := sessions + [AbandonedSession(cancellations[i].address)];
        }
        assert cancellations[..i + 1][..i] == cancellations[..i];
        i := i + 1;
      }
      assert cancellations[..i] == cancellations;
      OfItemsAre(State(), place, holders, ofItems);
      CancelledAtAre(cancellations, place);
      hide SplitByStanding, Said, KeptBy, SaidAt;
    }

    // -------------------------------------------------------------- the other facts

    method Remember(id: ItemId, unsentSince: Option<nat>, given: Given) returns (done: Result<bool, Error>)
      modifies this`kept, this`cancellations
      ensures match RememberFact(old(State()), id, unsentSince, given)
              case Ok(result) => done == Ok(result.1) && State() == result.0
              case Err(error) => done == Err(error) && State() == old(State())
    {
      hide SplitByStanding, Learn, Changed;
      if id !in rows || IsNoFact(id, given) {
        return Err(Refused(AnotherRule));
      }
      var said := Said(State(), id);
      var learnt := Learn(rows[id], said, unsentSince, FactOf(said, given));
      Change(id, if learnt.Some? then learnt.value else said);
      return Ok(learnt.Some?);
    }

    method ForgetFittingSpaceRefusals(freeSpace: nat, items: seq<ItemId>)
      modifies this`kept, this`cancellations
      ensures State() == ForgetFitting(old(State()), freeSpace, items)
    {
      hide Changed, Said;
      var k := 0;
      while k < |items|
        invariant 0 <= k <= |items|
        invariant State() == ForgetFitting(old(State()), freeSpace, items[..k])
      {
        Change(items[k], Fitted(Said(State(), items[k]), freeSpace));
        k := k + 1;
        assert items[..k][..k - 1] == items[..k - 1];
      }
      assert items[..k] == items;
    }

    // -------------------------------------------------------------- bindings and rows

    method DropFacts(id: ItemId) returns (name: Option<TemporaryName>)
      modifies this`kept, this`cancellations
      ensures State() == DropFactsOf(old(State()), id) && name == Kept(old(State()), id).temporaryName
    {
      var memory := Kept(State(), id);
      ChangeWhatIsKept(id, NOTHING);
      AbandonKept(memory.uploadSession);
      return memory.temporaryName;
    }

    method BindingMoves(from: ItemId, to: ItemId, inDirectory: seq<ItemId>)
      modifies this`kept, this`cancellations
      ensures State() == FollowBinding(old(State()), from, to, inDirectory)
    {
      hide DropFactsOf, ChangeKept, DropAnswers;
      ghost var was := State();
      var name := DropFacts(from);
      var own := DropFacts(to);
      if name.None? && own.Some? && from in rows && rows[from].onedrivePlace.Some? && own.value.IsAt(rows[from].onedrivePlace.value) {
        name := own;
      }
      assert DropFactsOf(was, from).rows == was.rows by { hide *; RowsStay(was, from); }
      assert name == NameAfterMove(was, from, to);
      if name.Some? {
        ChangeWhatIsKept(to, Kept(State(), to).(temporaryName := name));
      }
      ghost var named := State();
      var k := 0;
      while k < |inDirectory|
        invariant 0 <= k <= |inDirectory|
        invariant State() == DropAnswersOf(named, from, inDirectory[..k])
      {
        DropAnswersIn(inDirectory[k], from);
        k := k + 1;
        assert inDirectory[..k][..k - 1] == inDirectory[..k - 1];
      }
      assert inDirectory[..k] == inDirectory;
      cancellations := MoveEmptyFiles(State(), from, to).cancellations;
    }

    method DropAnswersIn(id: ItemId, directory: ItemId)
      modifies this`kept, this`cancellations
      ensures State() == DropAnswers(old(State()), id, directory)
    {
      var memory := Kept(State(), id);
      ChangeWhatIsKept(id, DropAnswersOfDirectory(memory, directory));
      if IsIn(PlaceOfEmptyFile(memory), directory) {
        AbandonKept(memory.uploadSession);
      }
    }
  }

  lemma RowsStay(s: Store, id: ItemId)
    ensures DropFactsOf(s, id).rows == s.rows
  {
  }

  // ---------------------------------------------------------------- what is listed

  /** The session has an empty file in that directory, under a name that folds to that one. */
  ghost predicate HasFileAt(memory: ItemMemory, place: FoldedPlace) {
    && memory.uploadSession.Some? && memory.uploadSession.value.emptyFile.Some?
    && memory.uploadSession.value.emptyFile.value.place.parent == place.parent
    && memory.uploadSession.value.emptyFile.value.foldedName == place.foldedName
  }

  function SessionOf(s: Store, id: ItemId): EmptyFileSession
    requires id in s.kept && s.kept[id].uploadSession.Some?
  {
    var session := s.kept[id].uploadSession.value;
    if SaidAt(s, id, session.address) then ContinuedSession(id, session.address, session.expiresAt) else AbandonedSession(session.address)
  }

  function CancelledAt(cancellations: seq<Cancellation>, place: FoldedPlace): seq<EmptyFileSession> {
    if cancellations == [] then []
    else
      var last := cancellations[|cancellations| - 1];
      CancelledAt(cancellations[..|cancellations| - 1], place) + if last.emptyFile == Some(place) then [AbandonedSession(last.address)] else []
  }

  lemma SaidIsKept(s: Store, id: ItemId)
    ensures Said(s, id).uploadSession.Some? ==> id in s.kept && Said(s, id).uploadSession == s.kept[id].uploadSession
  {
  }

  lemma {:induction false} CancelledAtAre(cancellations: seq<Cancellation>, place: FoldedPlace)
    ensures forall session :: session in CancelledAt(cancellations, place) <==> session.AbandonedSession? && Cancellation(session.address, Some(place)) in cancellations
  {
    if cancellations != [] {
      var before, last := cancellations[..|cancellations| - 1], cancellations[|cancellations| - 1];
      CancelledAtAre(before, place);
      assert cancellations == before + [last];
    }
  }

  lemma OfItemsAre(s: Store, place: FoldedPlace, holders: seq<ItemId>, sessions: seq<EmptyFileSession>)
    requires Lists(holders, s, (m: ItemMemory) => EmptyFileAt(m) == Some(place))
    requires |sessions| == |holders| && forall i :: 0 <= i < |holders| ==> holders[i] in s.kept && s.kept[holders[i]].uploadSession.Some? && sessions[i] == SessionOf(s, holders[i])
    ensures forall id: ItemId, address: Address, expiresAt: Option<int> ::
              ContinuedSession(id, address, expiresAt) in sessions <==>
              SaidAt(s, id, address) && Said(s, id).uploadSession.value.expiresAt == expiresAt && HasFileAt(Said(s, id), place)
    ensures forall address: Address ::
              AbandonedSession(address) in sessions <==>
              exists id: ItemId :: KeptBy(s, id, address) && HasFileAt(Kept(s, id), place) && !SaidAt(s, id, address)
  {
  }
}
