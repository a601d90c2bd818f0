/** Every operation, row change and binding move, in any order: no address of an upload session is lost. */
module StepRuns {
  import opened Wrappers
  import opened ItemTree
  import opened ItemTable
  import opened StepFacts
  import opened StepMemories
  import opened StepSessions

  // ---------------------------------------------------------------- the other facts

  lemma FactKeeps(s: Store, id: ItemId, unsentSince: Option<nat>, given: Given)
    requires OfRows(s) && !(given.GivenFact? && given.fact.SessionFact?)
    ensures match RememberFact(s, id, unsentSince, given)
            case Ok(done) => Safe(s, done.0, {})
            case Err(_) => true
  {
    hide Safe, SplitByStanding, Changed, Said;
    if id in s.rows && !IsNoFact(id, given) {
      var said := Said(s, id);
      match Learn(s.rows[id], said, unsentSince, FactOf(said, given)) {
        case Some(learnt) => SaidStays(s, id, learnt);
        case None => SaidStays(s, id, said);
      }
    }
  }

  /** What is kept is changed, and its session stays. */
  lemma KeptSessionStays(s: Store, id: ItemId, memory: ItemMemory)
    requires OfRows(s) && AddressOf(memory.uploadSession) == AddressOf(Kept(s, id).uploadSession)
    requires id !in s.rows ==> memory == NOTHING
    ensures Safe(s, ChangeKept(s, id, memory), {}) && ChangeKept(s, id, memory).rows == s.rows
  {
    hide Safe, ChangeKept, OneChanged, KeptBy;
    ChangeKeptKeeps(s, id, memory);
    forall address: Address
      ensures KeptBy(s, id, address) <==> AddressOf(memory.uploadSession) == Some(address)
    {
      KeptIs(s, id, address);
    }
    OneChangedIsSafe(s, ChangeKept(s, id, memory), id, AddressOf(memory.uploadSession), {}, {});
  }

  lemma NothingKeptOfNoRow(s: Store, id: ItemId)
    requires OfRows(s) && id !in s.rows
    ensures Kept(s, id) == NOTHING
  {
  }

  lemma ConfirmedKeeps(s: Store, id: ItemId, request: Confirmed)
    requires OfRows(s)
    ensures var u := ForgetConfirmedRequest(s, id, request);
            match request
            case Upload(Some(address)) => SafeBut(s, u, address)
            case _ => Safe(s, u, {})
  {
    hide Safe, SafeBut, ChangeKept, TakeAwayGone, ForgetEnded, Kept, OfRows;
    if id !in s.rows {
      NothingKeptOfNoRow(s, id);
    }
    var memory := ForgetConfirmed(Kept(s, id), request);
    var u := ChangeKept(s, id, memory);
    KeptSessionStays(s, id, memory);
    SafeIsOfRows(s, u, {});
    TakeAwayKeeps(u, id);
    SafeThenSame(s, u, TakeAwayGone(u, id));
    if request.Upload? && request.endedSession.Some? {
      EndedKeeps(u, id, request.endedSession.value);
      SafeThenBut(s, u, ForgetEnded(u, id, request.endedSession.value), request.endedSession.value);
    }
  }

  lemma SafeThenBut(s: Store, u: Store, v: Store, reported: Address)
    requires Safe(s, u, {}) && SafeBut(u, v, reported)
    ensures SafeBut(s, v, reported)
  {
  }

  lemma CarryKeeps(s: Store, id: ItemId, from: ContentVersion, to: ContentVersion)
    requires OfRows(s)
    ensures Safe(s, CarryContentOf(s, id, from, to), {})
  {
    hide Safe, ChangeKept;
    KeptSessionStays(s, id, CarryContent(Kept(s, id), from, to));
  }

  lemma RetryKeeps(s: Store)
    requires OfRows(s)
    ensures Safe(s, ClearNextTries(s), {})
  {
    var u := ClearNextTries(s);
    hide Safe, Cancelled;
    CancelledIs(s, u);
    SameIsSafe(s, u);
  }

  lemma CancelledIs(s: Store, u: Store)
    requires u.cancellations == s.cancellations
    ensures forall address: Address :: Cancelled(u, address) <==> Cancelled(s, address)
  {
  }

  lemma {:induction false} FitKeeps(s: Store, freeSpace: nat, items: seq<ItemId>)
    requires OfRows(s)
    ensures Safe(s, ForgetFitting(s, freeSpace, items), {})
  {
    hide Safe, Changed, Said, OfRows;
    NoChange(s);
    if items != [] {
      var u := ForgetFitting(s, freeSpace, items[..|items| - 1]);
      FitKeeps(s, freeSpace, items[..|items| - 1]);
      SafeIsOfRows(s, u, {});
      SessionIsSaidOrGone(u, items[|items| - 1]);
      SaidStays(u, items[|items| - 1], Fitted(Said(u, items[|items| - 1]), freeSpace));
      SafeThenSame(s, u, ForgetFitting(s, freeSpace, items));
    }
  }

  lemma {:induction false} RefusalsKeep(s: Store, items: seq<ItemId>)
    requires OfRows(s)
    ensures Safe(s, ForgetRefusals(s, items), {})
  {
    hide Safe, Changed, Said, OfRows;
    NoChange(s);
    if items != [] {
      var u := ForgetRefusals(s, items[..|items| - 1]);
      RefusalsKeep(s, items[..|items| - 1]);
      SafeIsOfRows(s, u, {});
      SessionIsSaidOrGone(u, items[|items| - 1]);
      SaidStays(u, items[|items| - 1], Said(u, items[|items| - 1]).(refusal := None));
      SafeThenSame(s, u, ForgetRefusals(s, items));
    }
  }

  // ---------------------------------------------------------------- bindings

  lemma DropFactsKeeps(s: Store, id: ItemId)
    requires OfRows(s)
    ensures Safe(s, DropFactsOf(s, id), {}) && DropFactsOf(s, id).rows == s.rows
  {
    hide Safe, ChangeKept, OneChanged, KeptBy, Abandon, Kept, OfRows;
    var session := Kept(s, id).uploadSession;
    ChangeKeptKeeps(s, id, NOTHING);
    ThenAbandon(s, ChangeKept(s, id, NOTHING), id, None, {}, session);
    forall address: Address
      ensures KeptBy(s, id, address) <==> AddressOf(session) == Some(address)
    {
      KeptIs(s, id, address);
    }
    OneChangedIsSafe(s, DropFactsOf(s, id), id, None, {} + SetOf(AddressOf(session)), {});
  }

  lemma GiveBindingKeeps(s: Store, id: ItemId)
    requires OfRows(s) && id in s.rows
    ensures Safe(s, GiveBinding(s, id), {})
  {
    hide Safe, ChangeKept, DropFactsOf, Kept;
    var u := DropFactsOf(s, id);
    DropFactsKeeps(s, id);
    SafeIsOfRows(s, u, {});
    KeptSessionStays(u, id, Kept(u, id).(temporaryName := Kept(s, id).temporaryName));
    SafeThenSame(s, u, GiveBinding(s, id));
  }

  lemma DropAnswersKeeps(s: Store, id: ItemId, directory: ItemId)
    requires OfRows(s)
    ensures Safe(s, DropAnswers(s, id, directory), {}) && DropAnswers(s, id, directory).rows == s.rows
  {
    hide Safe, ChangeKept, OneChanged, KeptBy, Abandon, Kept, OfRows;
    if id !in s.rows {
      NothingKeptOfNoRow(s, id);
    }
    var memory := Kept(s, id);
    var left := DropAnswersOfDirectory(memory, directory);
    var session := if IsIn(PlaceOfEmptyFile(memory), directory) then memory.uploadSession else None;
    ChangeKeptKeeps(s, id, left);
    ThenAbandon(s, ChangeKept(s, id, left), id, AddressOf(left.uploadSession), {}, session);
    forall address: Address
      ensures KeptBy(s, id, address) <==> AddressOf(memory.uploadSession) == Some(address)
    {
      KeptIs(s, id, address);
    }
    OneChangedIsSafe(s, DropAnswers(s, id, directory), id, AddressOf(left.uploadSession), {} + SetOf(AddressOf(session)), {});
  }

  lemma {:induction false} DropAllAnswersKeeps(s: Store, directory: ItemId, items: seq<ItemId>)
    requires OfRows(s)
    ensures Safe(s, DropAnswersOf(s, directory, items), {}) && DropAnswersOf(s, directory, items).rows == s.rows
  {
    hide Safe, DropAnswers, OfRows;
    NoChange(s);
    if items != [] {
      var u := DropAnswersOf(s, directory, items[..|items| - 1]);
      DropAllAnswersKeeps(s, directory, items[..|items| - 1]);
      SafeIsOfRows(s, u, {});
      DropAnswersKeeps(u, items[|items| - 1], directory);
      SafeThenSame(s, u, DropAnswersOf(s, directory, items));
    }
  }

  lemma CancelledInOther(a: seq<Cancellation>, b: seq<Cancellation>)
    requires |a| == |b| && forall i :: 0 <= i < |a| ==> a[i].address == b[i].address
    ensures forall address: Address :: CancelledIn(a, address) <==> CancelledIn(b, address)
  {
  }

  lemma MoveEmptyFilesKeeps(s: Store, from: ItemId, to: ItemId)
    requires OfRows(s)
    ensures Safe(s, MoveEmptyFiles(s, from, to), {})
  {
    var u := MoveEmptyFiles(s, from, to);
    CancelledInOther(s.cancellations, u.cancellations);
    hide Safe;
    SameIsSafe(s, u);
  }

  lemma FollowKeeps(s: Store, from: ItemId, to: ItemId, inDirectory: seq<ItemId>)
    requires OfRows(s) && from in s.rows && to in s.rows && from != to
    ensures Safe(s, FollowBinding(s, from, to, inDirectory), {})
  {
    hide Safe, ChangeKept, DropFactsOf, Kept, OfRows, NameAfterMove, DropAnswersOf, MoveEmptyFiles;
    var name := NameAfterMove(s, from, to);
    var t := DropFactsOf(s, from);
    DropFactsKeeps(s, from);
    SafeIsOfRows(s, t, {});
    var u := DropFactsOf(t, to);
    DropFactsKeeps(t, to);
    SafeThenSame(s, t, u);
    SafeIsOfRows(s, u, {});
    var named := Kept(u, to).(temporaryName := name);
    KeptSessionStays(u, to, named);
    NoChange(u);
    var v := if name.Some? then ChangeKept(u, to, named) else u;
    SafeThenSame(s, u, v);
    SafeIsOfRows(s, v, {});
    var w := DropAnswersOf(v, from, inDirectory);
    DropAllAnswersKeeps(v, from, inDirectory);
    SafeThenSame(s, v, w);
    SafeIsOfRows(s, w, {});
    MoveEmptyFilesKeeps(w, from, to);
    SafeThenSame(s, w, MoveEmptyFiles(w, from, to));
  }

  // ---------------------------------------------------------------- rows

  lemma PutRowKeeps(s: Store, id: ItemId, row: Item)
    requires OfRows(s)
    ensures Safe(s, PutRow(s, id, row), {})
  {
    var u := PutRow(s, id, row);
    KeptByKept(s, u);
    CancelledIs(s, u);
    hide Safe, KeptBy, Cancelled;
    SameIsSafe(s, u);
  }

  lemma OthersKept(s: Store, id: ItemId)
    requires id in s.rows
    ensures forall other, address: Address :: KeptBy(DeleteRow(s, id), other, address) <==> other != id && KeptBy(s, other, address)
  {
  }

  lemma CancelledAfterDelete(s: Store, id: ItemId)
    requires id in s.rows
    ensures forall address: Address :: Cancelled(DeleteRow(s, id), address) <==> Cancelled(s, address) || address in SetOf(AddressOf(Kept(s, id).uploadSession))
  {
    var u := Abandon(s, Kept(s, id).uploadSession);
    AbandonKeeps(s, Kept(s, id).uploadSession);
    CancelledInOther(u.cancellations, DeleteRow(s, id).cancellations);
    hide Abandon;
  }

  /** A row goes, and what it kept of a session is left to cancel. */
  lemma DeleteRowKeeps(s: Store, id: ItemId)
    requires OfRows(s)
    ensures Safe(s, DeleteRow(s, id), {})
  {
    if id !in s.rows {
      NoChange(s);
    } else {
      OthersKept(s, id);
      CancelledAfterDelete(s, id);
      var session := Kept(s, id).uploadSession;
      assert OfRows(DeleteRow(s, id));
      hide Safe, KeptBy, Cancelled, DeleteRow, OfRows;
      forall address: Address
        ensures KeptBy(s, id, address) <==> AddressOf(session) == Some(address)
      {
        KeptIs(s, id, address);
      }
      OneChangedIsSafe(s, DeleteRow(s, id), id, None, SetOf(AddressOf(session)), {});
    }
  }

  // ---------------------------------------------------------------- one step, and whole runs

  /** The addresses an event gives the memory. */
  function GivenBy(event: Event): set<Address> {
    match event
    case GiveSession(_, _, session) => {session.address}
    case AdvanceTo(_, address, _, _) => {address}
    case _ => {}
  }

  /** The addresses an event reports ended or cancelled. */
  function ReportedBy(event: Event): set<Address> {
    match event
    case SessionEnded(_, address) => {address}
    case SessionCancelled(address, _) => {address}
    case RequestConfirmed(_, Upload(Some(address))) => {address}
    case _ => {}
  }

  /** A session is given with an address that has one place to be; one that is new always has. */
  ghost predicate HasOnePlace(s: Store, event: Event) {
    event.GiveSession? ==> StaysInOnePlace(s, event.id, event.unsentSince, event.session)
  }

  /** No address is lost or made up but by what the event says, and none comes to be in two places. */
  ghost predicate Follows(s: Store, u: Store, event: Event) {
    && OfRows(u)
    && (forall address: Address :: address !in ReportedBy(event) ==> (Has(u, address) <==> Has(s, address) || address in GivenBy(event)))
    && (forall address: Address :: Has(u, address) ==> Has(s, address) || address in GivenBy(event))
    && (InOnePlace(s) ==> (InOnePlace(u) <==> HasOnePlace(s, event)))
  }

  lemma SafeFollows(s: Store, u: Store, event: Event)
    requires Safe(s, u, GivenBy(event)) && !event.GiveSession?
    ensures Follows(s, u, event)
  {
  }

  lemma SafeButFollows(s: Store, u: Store, event: Event, reported: Address)
    requires SafeBut(s, u, reported) && ReportedBy(event) == {reported} && GivenBy(event) == {}
    ensures Follows(s, u, event)
  {
  }

  lemma GiveFollows(s: Store, id: ItemId, unsentSince: Option<nat>, session: UploadSession)
    requires OfRows(s)
    ensures Follows(s, RememberSession(s, id, unsentSince, session).0, GiveSession(id, unsentSince, session))
  {
    hide Has, InOnePlace, OfRows, RememberSession, StaysInOnePlace;
    RememberKeeps(s, id, unsentSince, session);
    if InOnePlace(s) {
      GivenAgainIff(s, id, unsentSince, session);
    }
  }

  lemma CancelledFollows(s: Store, address: Address, holders: seq<ItemId>)
    requires OfRows(s) && Fits(s, SessionCancelled(address, holders))
    ensures Follows(s, ForgetCancellation(s, address, holders), SessionCancelled(address, holders))
  {
    forall id: ItemId
      ensures KeptBy(s, id, address) ==> id in holders
    {
    }
    hide Has, InOnePlace, OfRows, ForgetCancellation, SafeBut;
    CancelledKeeps(s, address, holders);
    SafeButFollows(s, ForgetCancellation(s, address, holders), SessionCancelled(address, holders), address);
  }

  lemma StepKeeps(s: Store, event: Event)
    requires OfRows(s) && Fits(s, event)
    ensures Follows(s, Step(s, event), event)
  {
    hide Safe, SafeBut, Follows, Has, InOnePlace, OfRows, Opening, RememberSession, Advance, AbandonSession, ForgetEnded, ForgetCancellation,
         RememberFact, ForgetFitting, ForgetRefusals, ForgetConfirmedRequest, CarryContentOf, GiveBinding, FollowBinding, PutRow, DeleteRow,
         ClearNextTries, Lists;
    match event
    case Open(id, place, holders) => OpeningKeeps(s, id, place, holders); SafeFollows(s, Step(s, event), event);
    case GiveSession(id, unsentSince, session) => GiveFollows(s, id, unsentSince, session);
    case AdvanceTo(id, address, nextOffset, expiresAt) =>
      AdvanceKeeps(s, id, address, nextOffset, expiresAt);
      SafeFollows(s, Step(s, event), event);
    case GiveUpSession(id) => GiveUpKeeps(s, id); SafeFollows(s, Step(s, event), event);
    case SessionEnded(id, address) => EndedKeeps(s, id, address); SafeButFollows(s, Step(s, event), event, address);
    case SessionCancelled(address, holders) => CancelledFollows(s, address, holders);
    case GiveFact(id, unsentSince, given) =>
      FactKeeps(s, id, unsentSince, given);
      NoChange(s);
      SafeFollows(s, Step(s, event), event);
    case GiveTemporaryName(id, name) => NameKeeps(s, id, name); SafeFollows(s, Step(s, event), event);
    case RetryNow => RetryKeeps(s); SafeFollows(s, Step(s, event), event);
    case FreeSpace(freeSpace, items) => FitKeeps(s, freeSpace, items); SafeFollows(s, Step(s, event), event);
    case RefusalsVoid(_, items) => RefusalsKeep(s, items); SafeFollows(s, Step(s, event), event);
    case RequestConfirmed(id, request) => ConfirmedFollows(s, id, request);
    case ContentTold(id, from, to) => CarryKeeps(s, id, from, to); SafeFollows(s, Step(s, event), event);
    case BindingGiven(id) => GiveBindingKeeps(s, id); SafeFollows(s, Step(s, event), event);
    case BindingMoved(from, to, inDirectory) => FollowKeeps(s, from, to, inDirectory); SafeFollows(s, Step(s, event), event);
    case RowWritten(id, row) => PutRowKeeps(s, id, row); SafeFollows(s, Step(s, event), event);
    case RowDeleted(id) => DeleteRowKeeps(s, id); SafeFollows(s, Step(s, event), event);
  }

  lemma NameKeeps(s: Store, id: ItemId, name: TemporaryName)
    requires OfRows(s)
    ensures Safe(s, match RememberTemporaryName(s, id, name) case Ok(done) => done case Err(_) => s, {})
  {
    hide Safe, Changed, Said, OfRows;
    NoChange(s);
    if id in s.rows {
      SaidStays(s, id, Said(s, id).(temporaryName := Some(name)));
    }
  }

  lemma ConfirmedFollows(s: Store, id: ItemId, request: Confirmed)
    requires OfRows(s)
    ensures Follows(s, ForgetConfirmedRequest(s, id, request), RequestConfirmed(id, request))
  {
    hide Safe, SafeBut, Follows, OfRows, ForgetConfirmedRequest;
    var u, event := ForgetConfirmedRequest(s, id, request), RequestConfirmed(id, request);
    ConfirmedKeeps(s, id, request);
    if request.Upload? && request.endedSession.Some? {
      SafeButFollows(s, u, event, request.endedSession.value);
    } else {
      SafeFollows(s, u, event);
    }
  }

  ghost predicate Possible(s: Store, events: seq<Event>)
    decreases |events|
  {
    events != [] ==> Fits(s, events[0]) && Possible(Step(s, events[0]), events[1..])
  }

  function Run(s: Store, events: seq<Event>): Store
    decreases |events|
  {
    if events == [] then s else Run(Step(s, events[0]), events[1..])
  }

  /** The addresses given and not reported ended or cancelled since. */
  function Owed(owed: set<Address>, events: seq<Event>): set<Address>
    decreases |events|
  {
    if events == [] then owed else Owed(owed + GivenBy(events[0]) - ReportedBy(events[0]), events[1..])
  }

  function AllGiven(events: seq<Event>): set<Address>
    decreases |events|
  {
    if events == [] then {} else GivenBy(events[0]) + AllGiven(events[1..])
  }

  /** Over any run: an address given and not reported ended or cancelled is kept with an item or among the cancellations, and none comes from nowhere. */
  lemma {:induction false} RunKeepsOwed(s: Store, events: seq<Event>, owed: set<Address>)
    requires OfRows(s) && Possible(s, events) && forall address <- owed :: Has(s, address)
    ensures OfRows(Run(s, events))
    ensures forall address <- Owed(owed, events) :: Has(Run(s, events), address)
    ensures forall address: Address :: Has(Run(s, events), address) ==> Has(s, address) || address in AllGiven(events)
    decreases |events|
  {
    hide Has, OfRows, InOnePlace, Step, Fits, GivenBy, ReportedBy;
    if events != [] {
      StepKeeps(s, events[0]);
      OneStep(s, Step(s, events[0]), events[0], owed);
      RunKeepsOwed(Step(s, events[0]), events[1..], owed + GivenBy(events[0]) - ReportedBy(events[0]));
    }
  }

  lemma OneStep(s: Store, u: Store, event: Event, owed: set<Address>)
    requires Follows(s, u, event) && forall address <- owed :: Has(s, address)
    ensures OfRows(u)
    ensures forall address <- owed + GivenBy(event) - ReportedBy(event) :: Has(u, address)
    ensures forall address: Address :: Has(u, address) ==> Has(s, address) || address in GivenBy(event)
  {
  }

  ghost predicate EachHasOnePlace(s: Store, events: seq<Event>)
    decreases |events|
  {
    events != [] ==> HasOnePlace(s, events[0]) && EachHasOnePlace(Step(s, events[0]), events[1..])
  }

  /** After every event of the run each address is in one place, and a session an item goes on with is not left to cancel. */
  ghost predicate AlwaysInOnePlace(s: Store, events: seq<Event>)
    decreases |events|
  {
    && InOnePlace(s)
    && (forall id, address: Address :: SaidAt(s, id, address) ==> !Cancelled(s, address))
    && (events != [] ==> AlwaysInOnePlace(Step(s, events[0]), events[1..]))
  }

  /** Over any run every address stays in one place exactly when each session is given with an address that has one place to be. */
  lemma {:induction false} RunKeepsInOnePlaceIff(s: Store, events: seq<Event>)
    requires OfRows(s) && InOnePlace(s) && Possible(s, events)
    ensures AlwaysInOnePlace(s, events) <==> EachHasOnePlace(s, events)
    decreases |events|
  {
    hide Has, OfRows, InOnePlace, Step, Fits, Cancelled, SaidAt, HasOnePlace;
    ContinuedIsNotCancelled(s);
    if events != [] {
      var u := Step(s, events[0]);
      StepKeeps(s, events[0]);
      if InOnePlace(u) {
        RunKeepsInOnePlaceIff(u, events[1..]);
      }
    }
  }

  lemma ContinuedIsNotCancelled(s: Store)
    requires OfRows(s) && InOnePlace(s)
    ensures forall id, address: Address :: SaidAt(s, id, address) ==> !Cancelled(s, address)
  {
    hide Said, Cancelled, KeptBy;
    forall id, address: Address
      ensures SaidAt(s, id, address) ==> !Cancelled(s, address)
    {
      SessionIsSaidOrGone(s, id);
      assert SaidAt(s, id, address) ==> AddressOf(Said(s, id).uploadSession) == Some(address);
    }
  }
}
