/**
  The memory of a single item as a value: which of its facts hold of the row as it is now,
  and which a step can add to them.
*/
module StepFacts {
  import opened Wrappers
  import opened ItemTree
  import opened ItemTable
  import Reasons

  const U32_MAX: nat := 0xFFFF_FFFF

  /** Where an upload session is continued or cancelled: opaque. */
  type Address = string

  /** The place an upload session's empty file takes in OneDrive, with the name as OneDrive compares names. */
  datatype EmptyFile = EmptyFile(place: ItemPlace, foldedName: Name)

  datatype UploadSession = UploadSession(address: Address, expiresAt: Option<int>, nextOffset: nat, content: ContentVersion, emptyFile: Option<EmptyFile>)

  datatype FailedTries = FailedTries(count: nat, nextTryAt: Option<int>, lastFailure: Reasons.Reason)

  datatype SpaceRefusal = SpaceRefusal(content: ContentVersion, freeSpace: nat)

  /** What OneDrive refused: the version the folder showed at a place, or the removal. */
  datatype RefusedVersion =
    | ShownVersion(place: ItemPlace, content: Option<ContentVersion>)
    | Removal

  datatype Refusal = Refusal(reason: Reasons.Reason, version: RefusedVersion)

  datatype TakenName = TakenName(place: ItemPlace, holderName: Name)

  datatype TemporaryName = TemporaryName(name: Name, toward: ItemPlace)
  {
    predicate IsAt(place: ItemPlace) {
      toward.parent == place.parent && name == place.name
    }
  }

  datatype ItemMemory = ItemMemory(
    unsentSince: Option<nat>,
    uploadSession: Option<UploadSession>,
    failedTries: Option<FailedTries>,
    spaceRefusal: Option<SpaceRefusal>,
    refusal: Option<Refusal>,
    takenName: Option<TakenName>,
    temporaryName: Option<TemporaryName>)
  {
    predicate HoldsFactOfUnsentChange() {
      uploadSession.Some? || failedTries.Some? || spaceRefusal.Some? || refusal.Some? || takenName.Some?
    }

    /** The stamp is kept only with the facts that are of it. */
    function WithStampOfFacts(): ItemMemory {
      if HoldsFactOfUnsentChange() then this else this.(unsentSince := None)
    }
  }

  const NOTHING: ItemMemory := ItemMemory(None, None, None, None, None, None, None)

  /** The row has this content, or had it before the change that is being written. */
  predicate IsContentOf(row: Item, content: ContentVersion) {
    row.localPlace.Some? && (row.localContent == Some(content) || row.contentBeforeWrite == Some(content))
  }

  /** The item is bound and was agreed on, and is shown here no more. */
  predicate IsRemoval(row: Item) {
    row.binding.Some? && row.localPlace.None? && row.syncedPlace.Some?
  }

  predicate IsVersionOf(row: Item, version: RefusedVersion) {
    match version
    case ShownVersion(place, content) =>
      row.localPlace == Some(place) && (if content.Some? then IsContentOf(row, content.value) else row.localContent.None?)
    case Removal => IsRemoval(row)
  }

  predicate IsSameUnsentChange(memory: ItemMemory, row: Item) {
    memory.unsentSince.Some? && memory.unsentSince == row.unsentSince
  }

  datatype Parts = Parts(said: ItemMemory, gone: ItemMemory)

  function If<T>(fact: Option<T>, holds: bool): Option<T> {
    if holds then fact else None
  }

  /** A memory cut in two: what holds of the row as it is, and what does not. */
  function SplitByStanding(memory: ItemMemory, row: Item): Parts {
    var isSame := IsSameUnsentChange(memory, row);
    var session := isSame && memory.uploadSession.Some? && IsContentOf(row, memory.uploadSession.value.content);
    var space := isSame && memory.spaceRefusal.Some? && IsContentOf(row, memory.spaceRefusal.value.content);
    var refused := isSame && memory.refusal.Some? && IsVersionOf(row, memory.refusal.value.version);
    var taken := isSame && memory.takenName.Some? && row.localPlace == Some(memory.takenName.value.place);
    Parts(
      ItemMemory(memory.unsentSince, If(memory.uploadSession, session), If(memory.failedTries, isSame), If(memory.spaceRefusal, space),
                 If(memory.refusal, refused), If(memory.takenName, taken), None).WithStampOfFacts().(temporaryName := memory.temporaryName),
      ItemMemory(memory.unsentSince, If(memory.uploadSession, !session), If(memory.failedTries, !isSame), If(memory.spaceRefusal, !space),
                 If(memory.refusal, !refused), If(memory.takenName, !taken), None).WithStampOfFacts())
  }

  function Either<T>(a: Option<T>, b: Option<T>): Option<T> {
    if a.Some? then a else b
  }

  /** The two parts are the whole, no fact is in both, and what is said is said again. */
  lemma PartsAreWhole(memory: ItemMemory, row: Item)
    ensures var said, gone := SplitByStanding(memory, row).said, SplitByStanding(memory, row).gone;
            && Either(said.uploadSession, gone.uploadSession) == memory.uploadSession && (said.uploadSession.None? || gone.uploadSession.None?)
            && Either(said.failedTries, gone.failedTries) == memory.failedTries && (said.failedTries.None? || gone.failedTries.None?)
            && Either(said.spaceRefusal, gone.spaceRefusal) == memory.spaceRefusal && (said.spaceRefusal.None? || gone.spaceRefusal.None?)
            && Either(said.refusal, gone.refusal) == memory.refusal && (said.refusal.None? || gone.refusal.None?)
            && Either(said.takenName, gone.takenName) == memory.takenName && (said.takenName.None? || gone.takenName.None?)
            && said.temporaryName == memory.temporaryName
            && SplitByStanding(said, row) == Parts(said, NOTHING)
  {
  }

  /** The file is shown, and these are its bytes, or were before a change that is being written. */
  ghost predicate ShowsBytes(row: Item, content: ContentVersion) {
    row.localPlace.Some? && (row.localContent == Some(content) || row.contentBeforeWrite == Some(content))
  }

  /** The row has the refused place and those bytes, or none, or it is a removal: bound, agreed on, and not shown. */
  ghost predicate ShowsVersion(row: Item, version: RefusedVersion) {
    match version
    case ShownVersion(place, Some(content)) => row.localPlace == Some(place) && ShowsBytes(row, content)
    case ShownVersion(place, None) => row.localPlace == Some(place) && row.localContent.None?
    case Removal => row.binding.Some? && row.localPlace.None? && row.syncedPlace.Some?
  }

  /**
    What is said, in the row's own columns: a fact of an unsent change exactly under the row's
    stamp, and of a session or a refusal for space exactly while the row has its bytes, of a refused
    version while the row is at its place with its bytes, or is a removal, of a taken name
    while the row is at that place. The temporary name is said under no stamp.
  */
  lemma SaidIff(memory: ItemMemory, row: Item)
    ensures var said := SplitByStanding(memory, row).said;
            var isSame := row.unsentSince.Some? && memory.unsentSince == row.unsentSince;
            && (said.uploadSession.None? || said.uploadSession == memory.uploadSession)
            && (said.uploadSession.Some? <==> memory.uploadSession.Some? && isSame && ShowsBytes(row, memory.uploadSession.value.content))
            && said.failedTries == (if isSame then memory.failedTries else None)
            && (said.spaceRefusal.None? || said.spaceRefusal == memory.spaceRefusal)
            && (said.spaceRefusal.Some? <==> memory.spaceRefusal.Some? && isSame && ShowsBytes(row, memory.spaceRefusal.value.content))
            && (said.refusal.None? || said.refusal == memory.refusal)
            && (said.refusal.Some? <==> memory.refusal.Some? && isSame && ShowsVersion(row, memory.refusal.value.version))
            && (said.takenName.None? || said.takenName == memory.takenName)
            && (said.takenName.Some? <==> memory.takenName.Some? && isSame && row.localPlace == Some(memory.takenName.value.place))
            && said.temporaryName == memory.temporaryName
            && said.unsentSince == (if said.uploadSession.Some? || said.failedTries.Some? || said.spaceRefusal.Some? || said.refusal.Some? || said.takenName.Some?
                                    then row.unsentSince else None)
  {
  }

  /** A fact of an unsent change, as a step gives it. */
  datatype Fact =
    | SessionFact(session: UploadSession)
    | TriesFact(tries: FailedTries)
    | SpaceFact(space: SpaceRefusal)
    | RefusalFact(refusal: Refusal)
    | TakenFact(taken: TakenName)

  function WithFact(memory: ItemMemory, fact: Fact): ItemMemory {
    match fact
    case SessionFact(session) => memory.(uploadSession := Some(session))
    case TriesFact(tries) => memory.(failedTries := Some(tries))
    case SpaceFact(space) => memory.(spaceRefusal := Some(space))
    case RefusalFact(refusal) => memory.(refusal := Some(refusal))
    case TakenFact(taken) => memory.(takenName := Some(taken))
  }

  /** What a fact is asked of the row beside the stamp. */
  ghost predicate IsTrueOf(fact: Fact, row: Item) {
    match fact
    case SessionFact(session) => ShowsBytes(row, session.content)
    case TriesFact(_) => true
    case SpaceFact(space) => ShowsBytes(row, space.content)
    case RefusalFact(refusal) => ShowsVersion(row, refusal.version)
    case TakenFact(taken) => row.localPlace == Some(taken.place)
  }

  /** The memory with a fact learnt of the row stamped so, when the row still says it; `said` is what the row says. */
  function Learn(row: Item, said: ItemMemory, unsentSince: Option<nat>, fact: Fact): Option<ItemMemory> {
    if unsentSince.None? || row.unsentSince != unsentSince then None
    else
      var learnt := WithFact(said, fact).(unsentSince := unsentSince);
      if SplitByStanding(learnt, row).said == learnt then Some(learnt) else None
  }

  /** What every fact the memory holds is asked beside the stamp. */
  predicate AllTrue(memory: ItemMemory, row: Item) {
    && (memory.uploadSession.Some? ==> IsContentOf(row, memory.uploadSession.value.content))
    && (memory.spaceRefusal.Some? ==> IsContentOf(row, memory.spaceRefusal.value.content))
    && (memory.refusal.Some? ==> IsVersionOf(row, memory.refusal.value.version))
    && (memory.takenName.Some? ==> row.localPlace == Some(memory.takenName.value.place))
  }

  /** A fact can be learnt exactly under the row's own stamp and when it is true of the row; then it is among the answers, with all there were. */
  lemma LearntIff(memory: ItemMemory, row: Item, unsentSince: Option<nat>, fact: Fact)
    ensures var said := SplitByStanding(memory, row).said;
            var learnt := Learn(row, said, unsentSince, fact);
            && (learnt.Some? <==> unsentSince.Some? && row.unsentSince == unsentSince && IsTrueOf(fact, row))
            && (learnt.Some? ==> SplitByStanding(learnt.value, row).said == WithFact(said, fact).(unsentSince := unsentSince))
  {
  }

  // ---------------------------------------------------------------- what other things end

  /** A request OneDrive confirmed that may leave the item unsent. */
  datatype Confirmed = Upload(endedSession: Option<Address>) | MovedTo(place: ItemPlace)

  function ForgetConfirmed(memory: ItemMemory, request: Confirmed): ItemMemory {
    match request
    case Upload(_) => memory.(failedTries := None).WithStampOfFacts()
    case MovedTo(place) =>
      memory.(failedTries := None,
              takenName := if memory.takenName.Some? && memory.takenName.value.place == place then None else memory.takenName,
              temporaryName := if memory.temporaryName.Some? && memory.temporaryName.value.IsAt(place) then memory.temporaryName else None)
      .WithStampOfFacts()
  }

  function Carried(content: ContentVersion, from: ContentVersion, to: ContentVersion): ContentVersion {
    if content == from then to else content
  }

  /** One content is renamed: every fact that held the old name holds the new one. */
  function CarryContent(memory: ItemMemory, from: ContentVersion, to: ContentVersion): ItemMemory {
    memory.(
      uploadSession := if memory.uploadSession.Some? then Some(memory.uploadSession.value.(content := Carried(memory.uploadSession.value.content, from, to))) else None,
      spaceRefusal := if memory.spaceRefusal.Some? then Some(memory.spaceRefusal.value.(content := Carried(memory.spaceRefusal.value.content, from, to))) else None,
      refusal := if memory.refusal.Some? && memory.refusal.value.version.ShownVersion? && memory.refusal.value.version.content.Some? then
        var version := memory.refusal.value.version;
        Some(memory.refusal.value.(version := version.(content := Some(Carried(version.content.value, from, to)))))
      else memory.refusal)
  }

  function CarryRow(row: Item, from: ContentVersion, to: ContentVersion): Item {
    row.(localContent := if row.localContent == Some(from) then Some(to) else row.localContent,
         contentBeforeWrite := if row.contentBeforeWrite == Some(from) then Some(to) else row.contentBeforeWrite)
  }

  /** The facts that hold a content go on being said when the row and they are told it by another name. */
  lemma CarriedIsStillSaid(memory: ItemMemory, row: Item, from: ContentVersion, to: ContentVersion)
    ensures var before, after := SplitByStanding(memory, row).said, SplitByStanding(CarryContent(memory, from, to), CarryRow(row, from, to)).said;
            && (before.uploadSession.Some? ==> after.uploadSession.Some? && after.uploadSession.value.address == before.uploadSession.value.address)
            && (before.spaceRefusal.Some? ==> after.spaceRefusal.Some?)
            && (before.refusal.Some? ==> after.refusal.Some?)
            && after.failedTries == before.failedTries && after.takenName == before.takenName
  {
  }

  /** When the binding changes hands nothing of the memory is left. */
  function DropFactsOfBinding(memory: ItemMemory): ItemMemory {
    NOTHING
  }

  predicate IsIn(place: Option<ItemPlace>, directory: ItemId) {
    place.Some? && place.value.parent == directory
  }

  function PlaceOfEmptyFile(memory: ItemMemory): Option<ItemPlace> {
    if memory.uploadSession.Some? && memory.uploadSession.value.emptyFile.Some? then Some(memory.uploadSession.value.emptyFile.value.place) else None
  }

  function PlaceOfRefused(memory: ItemMemory): Option<ItemPlace> {
    if memory.refusal.Some? && memory.refusal.value.version.ShownVersion? then Some(memory.refusal.value.version.place) else None
  }

  function PlaceOfTaken(memory: ItemMemory): Option<ItemPlace> {
    if memory.takenName.Some? then Some(memory.takenName.value.place) else None
  }

  /** A directory loses its binding: whatever was answered of an item at a place in it goes. */
  function DropAnswersOfDirectory(memory: ItemMemory, directory: ItemId): ItemMemory {
    memory.(
      refusal := if IsIn(PlaceOfRefused(memory), directory) then None else memory.refusal,
      takenName := if IsIn(PlaceOfTaken(memory), directory) then None else memory.takenName,
      uploadSession := if IsIn(PlaceOfEmptyFile(memory), directory) then None else memory.uploadSession).WithStampOfFacts()
  }
}
