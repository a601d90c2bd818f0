/**
  The operations on what the steps remember, each one transaction: upload sessions go from
  an item's memory to the cancellations when nothing goes on with them.
*/
module StepMemories {
  import opened Wrappers
  import opened ItemTree
  import opened ItemTable
  import opened StepFacts
  import Reasons

  /** A place as OneDrive compares names. */
  datatype FoldedPlace = FoldedPlace(parent: ItemId, foldedName: Name)

  function Folded(emptyFile: Option<EmptyFile>): Option<FoldedPlace> {
    if emptyFile.Some? then Some(FoldedPlace(emptyFile.value.place.parent, emptyFile.value.foldedName)) else None
  }

  /** A session that is still to be cancelled, and where its empty file is, if it has one. */
  datatype Cancellation = Cancellation(address: Address, emptyFile: Option<FoldedPlace>)

  datatype Store = Store(rows: Rows, kept: map<ItemId, ItemMemory>, cancellations: seq<Cancellation>)

  function Kept(s: Store, id: ItemId): ItemMemory {
    if id in s.kept then s.kept[id] else NOTHING
  }

  /** What is kept of an item is replaced; nothing is kept of nothing. */
  function Write(s: Store, id: ItemId, memory: ItemMemory): Store {
    var kept := memory.WithStampOfFacts();
    s.(kept := if kept == NOTHING then s.kept - {id} else s.kept[id := kept])
  }

  predicate CancelledIn(cancellations: seq<Cancellation>, address: Address) {
    exists c <- cancellations :: c.address == address
  }

  predicate Cancelled(s: Store, address: Address) {
    CancelledIn(s.cancellations, address)
  }

  /** A session is abandoned: one whose cancel is left to send already stays as it is. */
  function AbandonAddress(s: Store, address: Address, emptyFile: Option<FoldedPlace>): Store {
    if Cancelled(s, address) then s else s.(cancellations := s.cancellations + [Cancellation(address, emptyFile)])
  }

  function Abandon(s: Store, session: Option<UploadSession>): Store {
    if session.Some? then AbandonAddress(s, session.value.address, Folded(session.value.emptyFile)) else s
  }

  function Without(cancellations: seq<Cancellation>, address: Address): seq<Cancellation> {
    if cancellations == [] then []
    else if cancellations[0].address == address then Without(cancellations[1..], address)
    else [cancellations[0]] + Without(cancellations[1..], address)
  }

  function ForgetCancel(s: Store, address: Address): Store {
    s.(cancellations := Without(s.cancellations, address))
  }

  // ---------------------------------------------------------------- one item's memory

  /** What an item's row says of what is kept of it; nothing for an item with no row. */
  function Said(s: Store, id: ItemId): ItemMemory {
    if id in s.rows then SplitByStanding(Kept(s, id), s.rows[id]).said else NOTHING
  }

  function GoneSession(s: Store, id: ItemId): Option<UploadSession> {
    if id in s.rows then SplitByStanding(Kept(s, id), s.rows[id]).gone.uploadSession else None
  }

  /** A write for an item: what its row does not say goes, a session to the cancellations, and this is kept. */
  function Changed(s: Store, id: ItemId, memory: ItemMemory): Store {
    if id !in s.rows then Write(s, id, NOTHING)
    else
      var u := Abandon(s, GoneSession(s, id));
      if memory == Kept(s, id) then u else Write(u, id, memory)
  }

  function TakeAwayGone(s: Store, id: ItemId): Store {
    Changed(s, id, Said(s, id))
  }

  /** A change of what is kept, whatever the row says. */
  function ChangeKept(s: Store, id: ItemId, memory: ItemMemory): Store {
    if memory == Kept(s, id) then s else Write(s, id, memory)
  }

  datatype Standing = Continued | Abandoned | OfAnotherItem

  /** The place of an empty file is dropped when its directory has no row. */
  function AtPlaceWithRow(s: Store, session: UploadSession): UploadSession {
    if session.emptyFile.Some? && session.emptyFile.value.place.parent !in s.rows then session.(emptyFile := None) else session
  }

  function LearnSession(s: Store, id: ItemId, unsentSince: Option<nat>, session: UploadSession): Option<ItemMemory> {
    if id in s.rows then Learn(s.rows[id], Said(s, id), unsentSince, SessionFact(session)) else None
  }

  function RememberSession(s: Store, id: ItemId, unsentSince: Option<nat>, given: UploadSession): (Store, Standing) {
    var session := AtPlaceWithRow(s, given);
    match LearnSession(s, id, unsentSince, session)
    case Some(learnt) =>
      var earlier := Said(s, id).uploadSession;
      var u := if earlier.Some? && earlier.value.address != session.address then Abandon(s, earlier) else s;
      (Changed(u, id, learnt), Continued)
    case None => (Abandon(TakeAwayGone(s, id), Some(session)), Abandoned)
  }

  /** The item's memory keeps a session at the address. */
  predicate KeptBy(s: Store, id: ItemId, address: Address) {
    id in s.kept && s.kept[id].uploadSession.Some? && s.kept[id].uploadSession.value.address == address
  }

  predicate SaidAt(s: Store, id: ItemId, address: Address) {
    Said(s, id).uploadSession.Some? && Said(s, id).uploadSession.value.address == address
  }

  function Advance(s: Store, id: ItemId, address: Address, nextOffset: nat, expiresAt: Option<int>): (Store, Standing) {
    if exists other <- s.kept :: other != id && KeptBy(s, other, address) then (s, OfAnotherItem)
    else if SaidAt(s, id, address) then
      var said := Said(s, id);
      (Changed(s, id, said.(uploadSession := Some(said.uploadSession.value.(nextOffset := nextOffset, expiresAt := expiresAt)))), Continued)
    else
      (AbandonAddress(TakeAwayGone(s, id), address, None), Abandoned)
  }

  function AbandonSession(s: Store, id: ItemId): Store {
    var said := Said(s, id);
    Changed(Abandon(s, said.uploadSession), id, said.(uploadSession := None))
  }

  function ForgetEnded(s: Store, id: ItemId, address: Address): Store {
    TakeAwayGone(if KeptBy(s, id, address) then Write(s, id, s.kept[id].(uploadSession := None)) else s, id)
  }

  function TakeAwayGoneOf(s: Store, items: seq<ItemId>): Store {
    if items == [] then s else TakeAwayGone(TakeAwayGoneOf(s, items[..|items| - 1]), items[|items| - 1])
  }

  function ForgetCancellation(s: Store, address: Address, holders: seq<ItemId>): Store {
    ForgetCancel(TakeAwayGoneOf(ForgetCancel(s, address), holders), address)
  }

  /** The rows a query finds: every item that meets the condition, and no other. */
  ghost predicate Lists(items: seq<ItemId>, s: Store, condition: ItemMemory -> bool) {
    forall id: ItemId :: id in items <==> id in s.kept && condition(s.kept[id])
  }

  function EmptyFileAt(memory: ItemMemory): Option<FoldedPlace> {
    if memory.uploadSession.Some? then Folded(memory.uploadSession.value.emptyFile) else None
  }

  /** A try begins: the item and all who may hold the name lose what their rows do not say. */
  function Opening(s: Store, id: ItemId, place: FoldedPlace, holders: seq<ItemId>): Store {
    if id !in s.rows || place.parent !in s.rows then s else TakeAwayGoneOf(TakeAwayGone(s, id), holders)
  }

  // ---------------------------------------------------------------- the other facts

  datatype Given =
    | GivenTry(reason: Reasons.Reason, nextTryAt: Option<int>)
    | GivenFact(fact: Fact)

  /** One try more of the same unsent change. */
  function NextTry(said: ItemMemory, reason: Reasons.Reason, nextTryAt: Option<int>): Fact {
    var before := if said.failedTries.Some? then said.failedTries.value.count else 0;
    TriesFact(FailedTries(if before < U32_MAX then before + 1 else U32_MAX, nextTryAt, reason))
  }

  function FactOf(said: ItemMemory, given: Given): Fact {
    match given
    case GivenTry(reason, nextTryAt) => NextTry(said, reason, nextTryAt)
    case GivenFact(fact) => fact
  }

  /** What is refused whatever the row says: nothing of the root is refused, and no name is empty. */
  predicate IsNoFact(id: ItemId, given: Given) {
    match given
    case GivenFact(RefusalFact(_)) => id == ROOT
    case GivenFact(TakenFact(taken)) => taken.holderName == ""
    case _ => false
  }

  /** A fact that is no session: an error where there is no row, and kept if the row says it. */
  function RememberFact(s: Store, id: ItemId, unsentSince: Option<nat>, given: Given): Result<(Store, bool), Error> {
    if id !in s.rows || IsNoFact(id, given) then Err(Refused(AnotherRule))
    else
      match Learn(s.rows[id], Said(s, id), unsentSince, FactOf(Said(s, id), given))
      case Some(learnt) => Ok((Changed(s, id, learnt), true))
      case None => Ok((TakeAwayGone(s, id), false))
  }

  function RememberTemporaryName(s: Store, id: ItemId, name: TemporaryName): Result<Store, Error> {
    if id !in s.rows || name.name == "" then Err(Refused(AnotherRule))
    else Ok(Changed(s, id, Said(s, id).(temporaryName := Some(name))))
  }

  function ClearNextTries(s: Store): Store {
    s.(kept := map id | id in s.kept ::
                 if s.kept[id].failedTries.Some? then s.kept[id].(failedTries := Some(s.kept[id].failedTries.value.(nextTryAt := None))) else s.kept[id])
  }

  /** So many bytes are free: refusals of files that fit now end, and the others have this number. */
  function Fitted(memory: ItemMemory, freeSpace: nat): ItemMemory {
    if memory.spaceRefusal.None? then memory
    else if memory.spaceRefusal.value.content.size <= freeSpace then memory.(spaceRefusal := None)
    else memory.(spaceRefusal := Some(memory.spaceRefusal.value.(freeSpace := freeSpace)))
  }

  function ForgetFitting(s: Store, freeSpace: nat, items: seq<ItemId>): Store {
    if items == [] then s
    else
      var u := ForgetFitting(s, freeSpace, items[..|items| - 1]);
      Changed(u, items[|items| - 1], Fitted(Said(u, items[|items| - 1]), freeSpace))
  }

  function ForgetRefusals(s: Store, items: seq<ItemId>): Store {
    if items == [] then s
    else
      var u := ForgetRefusals(s, items[..|items| - 1]);
      Changed(u, items[|items| - 1], Said(u, items[|items| - 1]).(refusal := None))
  }

  function ForgetConfirmedRequest(s: Store, id: ItemId, request: Confirmed): Store {
    var u := ChangeKept(s, id, ForgetConfirmed(Kept(s, id), request));
    if request.Upload? && request.endedSession.Some? then ForgetEnded(u, id, request.endedSession.value) else TakeAwayGone(u, id)
  }

  function CarryContentOf(s: Store, id: ItemId, from: ContentVersion, to: ContentVersion): Store {
    ChangeKept(s, id, CarryContent(Kept(s, id), from, to))
  }

  // ---------------------------------------------------------------- bindings and rows

  function DropFactsOf(s: Store, id: ItemId): Store {
    Abandon(ChangeKept(s, id, DropFactsOfBinding(Kept(s, id))), Kept(s, id).uploadSession)
  }

  /** An item that had no binding is given one: its temporary name stays. */
  function GiveBinding(s: Store, id: ItemId): Store {
    var u := DropFactsOf(s, id);
    ChangeKept(u, id, Kept(u, id).(temporaryName := Kept(s, id).temporaryName))
  }

  predicate AnswersIn(memory: ItemMemory, directory: ItemId) {
    IsIn(PlaceOfEmptyFile(memory), directory) || IsIn(PlaceOfTaken(memory), directory) || IsIn(PlaceOfRefused(memory), directory)
  }

  function DropAnswers(s: Store, id: ItemId, directory: ItemId): Store {
    var memory := Kept(s, id);
    Abandon(ChangeKept(s, id, DropAnswersOfDirectory(memory, directory)), if IsIn(PlaceOfEmptyFile(memory), directory) then memory.uploadSession else None)
  }

  function DropAnswersOf(s: Store, directory: ItemId, items: seq<ItemId>): Store {
    if items == [] then s else DropAnswers(DropAnswersOf(s, directory, items[..|items| - 1]), items[|items| - 1], directory)
  }

  function MoveEmptyFiles(s: Store, from: ItemId, to: ItemId): Store {
    s.(cancellations := seq(|s.cancellations|, i requires 0 <= i < |s.cancellations| => EmptyFileMoved(s.cancellations[i], from, to)))
  }

  function EmptyFileMoved(c: Cancellation, from: ItemId, to: ItemId): Cancellation {
    if c.emptyFile.Some? && c.emptyFile.value.parent == from then c.(emptyFile := Some(c.emptyFile.value.(parent := to))) else c
  }

  /** The temporary name after a binding moved: that of the giver, but the taker's own when that is where OneDrive has the item. */
  function NameAfterMove(s: Store, from: ItemId, to: ItemId): Option<TemporaryName> {
    var own := Kept(DropFactsOf(s, from), to).temporaryName;
    if Kept(s, from).temporaryName.Some? then Kept(s, from).temporaryName
    else if own.Some? && from in s.rows && s.rows[from].onedrivePlace.Some? && own.value.IsAt(s.rows[from].onedrivePlace.value) then own
    else None
  }

  /** The binding of one row is another's from now on, and what is remembered follows. */
  function FollowBinding(s: Store, from: ItemId, to: ItemId, inDirectory: seq<ItemId>): Store {
    var name := NameAfterMove(s, from, to);
    var u := DropFactsOf(DropFactsOf(s, from), to);
    var v := if name.Some? then ChangeKept(u, to, Kept(u, to).(temporaryName := name)) else u;
    MoveEmptyFiles(DropAnswersOf(v, from, inDirectory), from, to)
  }

  /** A directory went: places in it are forgotten by everybody. */
  function WithoutDirectory(memory: ItemMemory, directory: ItemId): ItemMemory {
    memory.(
      uploadSession := if IsIn(PlaceOfEmptyFile(memory), directory) then Some(memory.uploadSession.value.(emptyFile := None)) else memory.uploadSession,
      takenName := if IsIn(PlaceOfTaken(memory), directory) then None else memory.takenName,
      refusal := if IsIn(PlaceOfRefused(memory), directory) then None else memory.refusal)
  }

  function EmptyFileGone(c: Cancellation, directory: ItemId): Cancellation {
    if c.emptyFile.Some? && c.emptyFile.value.parent == directory then c.(emptyFile := None) else c
  }

  /** A row goes, whoever deletes it: its session is left to cancel, and its memory goes with it. */
  function DeleteRow(s: Store, id: ItemId): Store {
    if id !in s.rows then s
    else
      var u := Abandon(s, Kept(s, id).uploadSession);
      Store(s.rows - {id},
            map other | other in s.kept && other != id :: WithoutDirectory(s.kept[other], id),
            seq(|u.cancellations|, i requires 0 <= i < |u.cancellations| => EmptyFileGone(u.cancellations[i], id)))
  }

  function PutRow(s: Store, id: ItemId, row: Item): Store {
    s.(rows := s.rows[id := row])
  }

  // ---------------------------------------------------------------- whole runs

  datatype Event =
    | Open(id: ItemId, place: FoldedPlace, holders: seq<ItemId>)
    | GiveSession(id: ItemId, unsentSince: Option<nat>, session: UploadSession)
    | AdvanceTo(id: ItemId, address: Address, nextOffset: nat, expiresAt: Option<int>)
    | GiveUpSession(id: ItemId)
    | SessionEnded(id: ItemId, address: Address)
    | SessionCancelled(address: Address, holders: seq<ItemId>)
    | GiveFact(id: ItemId, unsentSince: Option<nat>, given: Given)
    | GiveTemporaryName(id: ItemId, name: TemporaryName)
    | RetryNow
    | FreeSpace(freeSpace: nat, items: seq<ItemId>)
    | RefusalsVoid(reason: Reasons.Reason, items: seq<ItemId>)
    | RequestConfirmed(id: ItemId, request: Confirmed)
    | ContentTold(id: ItemId, from: ContentVersion, to: ContentVersion)
    | BindingGiven(id: ItemId)
    | BindingMoved(giver: ItemId, taker: ItemId, inDirectory: seq<ItemId>)
    | RowWritten(id: ItemId, row: Item)
    | RowDeleted(id: ItemId)

  /** What the caller of an event holds to: the rows its queries found, and a binding moves to a row. */
  ghost predicate Fits(s: Store, event: Event) {
    match event
    case Open(_, place, holders) => Lists(holders, s, (m: ItemMemory) => EmptyFileAt(m) == Some(place))
    case SessionCancelled(address, holders) => Lists(holders, s, (m: ItemMemory) => m.uploadSession.Some? && m.uploadSession.value.address == address)
    case GiveFact(_, _, given) => !(given.GivenFact? && given.fact.SessionFact?)
    case FreeSpace(_, items) => Lists(items, s, (m: ItemMemory) => m.spaceRefusal.Some?)
    case RefusalsVoid(reason, items) => Lists(items, s, (m: ItemMemory) => m.refusal.Some? && Reasons.Key(m.refusal.value.reason) == Reasons.Key(reason))
    case BindingGiven(id) => id in s.rows
    case BindingMoved(from, to, inDirectory) => from in s.rows && to in s.rows && from != to
    case _ => true
  }

  function Step(s: Store, event: Event): Store {
    match event
    case Open(id, place, holders) => Opening(s, id, place, holders)
    case GiveSession(id, unsentSince, session) => RememberSession(s, id, unsentSince, session).0
    case AdvanceTo(id, address, nextOffset, expiresAt) => Advance(s, id, address, nextOffset, expiresAt).0
    case GiveUpSession(id) => AbandonSession(s, id)
    case SessionEnded(id, address) => ForgetEnded(s, id, address)
    case SessionCancelled(address, holders) => ForgetCancellation(s, address, holders)
    case GiveFact(id, unsentSince, given) =>
      (match RememberFact(s, id, unsentSince, given) case Ok(done) => done.0 case Err(_) => s)
    case GiveTemporaryName(id, name) => (match RememberTemporaryName(s, id, name) case Ok(done) => done case Err(_) => s)
    case RetryNow => ClearNextTries(s)
    case FreeSpace(freeSpace, items) => ForgetFitting(s, freeSpace, items)
    case RefusalsVoid(_, items) => ForgetRefusals(s, items)
    case RequestConfirmed(id, request) => ForgetConfirmedRequest(s, id, request)
    case ContentTold(id, from, to) => CarryContentOf(s, id, from, to)
    case BindingGiven(id) => GiveBinding(s, id)
    case BindingMoved(from, to, inDirectory) => FollowBinding(s, from, to, inDirectory)
    case RowWritten(id, row) => PutRow(s, id, row)
    case RowDeleted(id) => DeleteRow(s, id)
  }
}
