/**
  An address of an upload session always has somewhere to go: over every run it is kept
  with an item or among the cancellations until it is reported ended or cancelled.
*/
module StepSessions {
  import opened Wrappers
  import opened ItemTree
  import opened ItemTable
  import opened StepFacts
  import opened StepMemories

  ghost predicate KeptSomewhere(s: Store, address: Address) {
    exists id <- s.kept :: KeptBy(s, id, address)
  }

  ghost predicate Has(s: Store, address: Address) {
    KeptSomewhere(s, address) || Cancelled(s, address)
  }

  /** Only of items with a row is anything kept. */
  ghost predicate OfRows(s: Store) {
    forall id <- s.kept :: id in s.rows
  }

  /** Each address is in one place: with one item, or among the cancellations. */
  ghost predicate InOnePlace(s: Store) {
    && (forall id, other, address: Address :: KeptBy(s, id, address) && KeptBy(s, other, address) ==> id == other)
    && (forall id, address: Address :: KeptBy(s, id, address) ==> !Cancelled(s, address))
  }

  function AddressOf(session: Option<UploadSession>): Option<Address> {
    if session.Some? then Some(session.value.address) else None
  }

  /** The memory of one item is written, and some sessions are abandoned. */
  ghost predicate OneChanged(s: Store, u: Store, id: ItemId, session: Option<Address>, abandoned: set<Address>) {
    && (forall other, address: Address :: KeptBy(u, other, address) <==> if other == id then session == Some(address) else KeptBy(s, other, address))
    && (forall address: Address :: Cancelled(u, address) <==> Cancelled(s, address) || address in abandoned)
  }

  /** The addresses of a store are those of another, with some more or none; what is kept is of items with a row, and each address in one place as before. */
  ghost predicate Safe(s: Store, u: Store, more: set<Address>) {
    && OfRows(u)
    && (forall address: Address :: Has(u, address) <==> Has(s, address) || address in more)
    && (InOnePlace(s) ==> InOnePlace(u))
  }

  function SetOf(address: Option<Address>): set<Address> {
    if address.Some? then {address.value} else {}
  }

  // ---------------------------------------------------------------- what a change of one item does

  lemma KeptIs(s: Store, id: ItemId, address: Address)
    ensures KeptBy(s, id, address) <==> AddressOf(Kept(s, id).uploadSession) == Some(address)
    ensures KeptBy(s, id, address) ==> KeptSomewhere(s, address)
  {
  }

  lemma KeptSomewhereIs(s: Store, address: Address) returns (id: ItemId)
    requires KeptSomewhere(s, address)
    ensures KeptBy(s, id, address)
  {
    id :| id in s.kept && KeptBy(s, id, address);
  }

  /** What the addresses are after it, when nothing of the item's session is lost. */
  lemma NothingLost(s: Store, u: Store, id: ItemId, session: Option<Address>, abandoned: set<Address>)
    requires OneChanged(s, u, id, session, abandoned)
    requires forall address: Address :: KeptBy(s, id, address) ==> session == Some(address) || address in abandoned
    ensures forall address: Address :: Has(u, address) <==> Has(s, address) || session == Some(address) || address in abandoned
  {
    hide Cancelled, KeptBy, KeptSomewhere;
    forall address: Address
      ensures Has(u, address) <==> Has(s, address) || session == Some(address) || address in abandoned
    {
      KeptIs(u, id, address);
      if KeptSomewhere(s, address) {
        var holder := KeptSomewhereIs(s, address);
        KeptIs(u, holder, address);
      }
      if KeptSomewhere(u, address) {
        var holder := KeptSomewhereIs(u, address);
        KeptIs(s, holder, address);
      }
    }
  }

  lemma StillInOnePlace(s: Store, u: Store, id: ItemId, session: Option<Address>, abandoned: set<Address>)
    requires OneChanged(s, u, id, session, abandoned) && InOnePlace(s)
    requires session.Some? ==> session.value !in abandoned && (KeptBy(s, id, session.value) || !Has(s, session.value))
    requires forall address <- abandoned, other :: other != id ==> !KeptBy(s, other, address)
    ensures InOnePlace(u)
  {
    hide Cancelled, KeptBy, KeptSomewhere;
    if session.Some? {
      forall other: ItemId
        ensures other != id ==> !KeptBy(s, other, session.value)
        ensures !Cancelled(s, session.value)
      {
        KeptIs(s, other, session.value);
      }
    }
  }

  lemma OneChangedIsSafe(s: Store, u: Store, id: ItemId, session: Option<Address>, abandoned: set<Address>, more: set<Address>)
    requires OneChanged(s, u, id, session, abandoned) && OfRows(u) && more <= abandoned
    requires session.Some? ==> session.value !in abandoned && KeptBy(s, id, session.value)
    requires forall address <- abandoned :: KeptBy(s, id, address) || (address in more && forall other :: !KeptBy(s, other, address))
    requires forall address: Address :: KeptBy(s, id, address) ==> session == Some(address) || address in abandoned
    ensures Safe(s, u, more)
  {
    hide Cancelled, KeptBy, KeptSomewhere, OneChanged, InOnePlace, Has;
    NothingLost(s, u, id, session, abandoned);
    forall address: Address
      ensures KeptBy(s, id, address) ==> Has(s, address)
    {
      KeptIsHad(s, id, address);
    }
    if InOnePlace(s) {
      AbandonedIsOwn(s, id, abandoned);
      StillInOnePlace(s, u, id, session, abandoned);
    }
  }

  lemma AbandonedIsOwn(s: Store, id: ItemId, abandoned: set<Address>)
    requires InOnePlace(s)
    requires forall address <- abandoned :: KeptBy(s, id, address) || (forall other :: !KeptBy(s, other, address))
    ensures forall address <- abandoned, other :: other != id ==> !KeptBy(s, other, address)
  {
    hide KeptBy;
  }

  lemma KeptIsHad(s: Store, id: ItemId, address: Address)
    ensures KeptBy(s, id, address) || Cancelled(s, address) ==> Has(s, address)
  {
  }

  lemma SafeThenSame(s: Store, u: Store, v: Store)
    requires Safe(s, u, {}) && Safe(u, v, {})
    ensures Safe(s, v, {})
  {
    hide Has, InOnePlace, OfRows;
  }

  /** Who keeps what and what is cancelled is as it was. */
  lemma SameIsSafe(s: Store, u: Store)
    requires OfRows(u)
    requires forall id, address: Address :: KeptBy(u, id, address) <==> KeptBy(s, id, address)
    requires forall address: Address :: Cancelled(u, address) <==> Cancelled(s, address)
    ensures Safe(s, u, {})
  {
    hide Cancelled, KeptBy, KeptSomewhere;
    forall address: Address
      ensures Has(u, address) <==> Has(s, address)
    {
      if KeptSomewhere(s, address) {
        var holder := KeptSomewhereIs(s, address);
        KeptIs(u, holder, address);
      }
      if KeptSomewhere(u, address) {
        var holder := KeptSomewhereIs(u, address);
        KeptIs(s, holder, address);
      }
    }
  }

  // ---------------------------------------------------------------- the parts of an operation

  lemma WriteKeeps(s: Store, id: ItemId, memory: ItemMemory)
    ensures OneChanged(s, Write(s, id, memory), id, AddressOf(memory.uploadSession), {})
    ensures Write(s, id, memory).kept.Keys <= s.kept.Keys + if memory == NOTHING then {} else {id}
  {
  }

  lemma AbandonAddressKeeps(s: Store, given: Address, emptyFile: Option<FoldedPlace>)
    ensures var u := AbandonAddress(s, given, emptyFile);
            && u.rows == s.rows && u.kept == s.kept
            && forall address: Address :: Cancelled(u, address) <==> Cancelled(s, address) || address == given
  {
    var u := AbandonAddress(s, given, emptyFile);
    if !Cancelled(s, given) {
      forall address: Address
        ensures Cancelled(u, address) <==> Cancelled(s, address) || address == given
      {
        CancelledMore(s.cancellations, Cancellation(given, emptyFile), address);
      }
    }
  }

  lemma CancelledMore(cancellations: seq<Cancellation>, c: Cancellation, address: Address)
    ensures CancelledIn(cancellations + [c], address) <==> CancelledIn(cancellations, address) || c.address == address
  {
    assert c in cancellations + [c];
    if d :| d in cancellations && d.address == address {
      assert d in cancellations + [c];
    }
  }

  lemma AbandonKeeps(s: Store, session: Option<UploadSession>)
    ensures var u := Abandon(s, session);
            && u.rows == s.rows && u.kept == s.kept
            && forall address: Address :: Cancelled(u, address) <==> Cancelled(s, address) || address in SetOf(AddressOf(session))
  {
    if session.Some? {
      AbandonAddressKeeps(s, session.value.address, Folded(session.value.emptyFile));
    }
  }

  /** A write for an item with a row: the session its row does not say is abandoned. */
  lemma ChangedKeeps(s: Store, id: ItemId, memory: ItemMemory)
    requires OfRows(s)
    requires id !in s.rows ==> memory == NOTHING
    ensures OneChanged(s, Changed(s, id, memory), id, AddressOf(memory.uploadSession), SetOf(AddressOf(GoneSession(s, id))))
    ensures OfRows(Changed(s, id, memory)) && Changed(s, id, memory).rows == s.rows
  {
    hide Abandon, SplitByStanding, Cancelled;
    if id !in s.rows {
      WriteKeeps(s, id, NOTHING);
    } else {
      AbandonKeeps(s, GoneSession(s, id));
      var u := Abandon(s, GoneSession(s, id));
      WriteKeeps(u, id, memory);
    }
  }

  lemma ChangeKeptKeeps(s: Store, id: ItemId, memory: ItemMemory)
    requires OfRows(s)
    requires id !in s.rows ==> memory == NOTHING
    ensures OneChanged(s, ChangeKept(s, id, memory), id, AddressOf(memory.uploadSession), {})
    ensures OfRows(ChangeKept(s, id, memory)) && ChangeKept(s, id, memory).rows == s.rows
  {
    WriteKeeps(s, id, memory);
    hide Cancelled;
  }

  /** Some sessions more are abandoned. */
  lemma ThenAbandon(s: Store, u: Store, id: ItemId, session: Option<Address>, abandoned: set<Address>, more: Option<UploadSession>)
    requires OneChanged(s, u, id, session, abandoned) && OfRows(u)
    ensures OneChanged(s, Abandon(u, more), id, session, abandoned + SetOf(AddressOf(more)))
    ensures OfRows(Abandon(u, more)) && Abandon(u, more).rows == u.rows
  {
    AbandonKeeps(u, more);
    assert forall other, address: Address :: KeptBy(Abandon(u, more), other, address) <==> KeptBy(u, other, address);
    hide Abandon, Cancelled;
  }

  /** What an item keeps of a session its row says, or does not. */
  lemma SessionIsSaidOrGone(s: Store, id: ItemId)
    requires OfRows(s)
    ensures Said(s, id).uploadSession.None? || GoneSession(s, id).None?
    ensures forall address: Address :: KeptBy(s, id, address) <==>
              AddressOf(Said(s, id).uploadSession) == Some(address) || address in SetOf(AddressOf(GoneSession(s, id)))
    ensures id !in s.rows ==> Said(s, id) == NOTHING && GoneSession(s, id).None?
  {
    if id in s.rows {
      PartsAreWhole(Kept(s, id), s.rows[id]);
    }
    hide SplitByStanding;
  }

  // ---------------------------------------------------------------- each operation

  /** A write that keeps what its row says of the session. */
  lemma SaidStays(s: Store, id: ItemId, memory: ItemMemory)
    requires OfRows(s) && AddressOf(memory.uploadSession) == AddressOf(Said(s, id).uploadSession)
    requires id !in s.rows ==> memory == NOTHING
    ensures Safe(s, Changed(s, id, memory), {}) && Changed(s, id, memory).rows == s.rows
  {
    hide Changed, Said, GoneSession, KeptBy, Safe, OneChanged;
    ChangedKeeps(s, id, memory);
    SessionIsSaidOrGone(s, id);
    OneChangedIsSafe(s, Changed(s, id, memory), id, AddressOf(memory.uploadSession), SetOf(AddressOf(GoneSession(s, id))), {});
  }

  lemma TakeAwayKeeps(s: Store, id: ItemId)
    requires OfRows(s)
    ensures Safe(s, TakeAwayGone(s, id), {}) && TakeAwayGone(s, id).rows == s.rows
  {
    hide Changed, Safe, SplitByStanding;
    SaidStays(s, id, Said(s, id));
  }

  lemma NoChange(s: Store)
    requires OfRows(s)
    ensures Safe(s, s, {})
  {
  }

  lemma SafeIsOfRows(s: Store, u: Store, more: set<Address>)
    requires Safe(s, u, more)
    ensures OfRows(u)
  {
  }

  lemma {:induction false} TakeAwayAllKeeps(s: Store, items: seq<ItemId>)
    requires OfRows(s)
    ensures Safe(s, TakeAwayGoneOf(s, items), {}) && TakeAwayGoneOf(s, items).rows == s.rows
  {
    hide Safe, TakeAwayGone;
    if items == [] {
      NoChange(s);
    } else {
      var u := TakeAwayGoneOf(s, items[..|items| - 1]);
      TakeAwayAllKeeps(s, items[..|items| - 1]);
      SafeIsOfRows(s, u, {});
      TakeAwayKeeps(u, items[|items| - 1]);
      SafeThenSame(s, u, TakeAwayGoneOf(s, items));
    }
  }

  lemma OpeningKeeps(s: Store, id: ItemId, place: FoldedPlace, holders: seq<ItemId>)
    requires OfRows(s)
    ensures Safe(s, Opening(s, id, place, holders), {})
  {
    hide Safe, TakeAwayGone;
    NoChange(s);
    var u := TakeAwayGone(s, id);
    TakeAwayKeeps(s, id);
    SafeIsOfRows(s, u, {});
    TakeAwayAllKeeps(u, holders);
    SafeThenSame(s, u, TakeAwayGoneOf(u, holders));
  }

  // ---------------------------------------------------------------- sessions given, advanced, given up

  /** After a session is given the item goes on with it, or its cancel is left to send. */
  lemma RememberIs(s: Store, id: ItemId, unsentSince: Option<nat>, given: UploadSession)
    requires OfRows(s)
    ensures var (u, standing) := RememberSession(s, id, unsentSince, given);
            var said, gone := Said(s, id).uploadSession, SetOf(AddressOf(GoneSession(s, id)));
            && OfRows(u) && u.rows == s.rows
            && standing == (if id in s.rows && unsentSince.Some? && s.rows[id].unsentSince == unsentSince && ShowsBytes(s.rows[id], given.content) then Continued else Abandoned)
            && OneChanged(s, u, id, if standing.Continued? then Some(given.address) else AddressOf(said),
                          gone + if standing.Abandoned? then {given.address} else SetOf(AddressOf(said)) - {given.address})
  {
    var session := AtPlaceWithRow(s, given);
    if id in s.rows {
      LearntIff(Kept(s, id), s.rows[id], unsentSince, SessionFact(session));
    }
    hide SplitByStanding, Abandon, Cancelled, KeptBy;
    match LearnSession(s, id, unsentSince, session) {
      case Some(learnt) =>
        var earlier := Said(s, id).uploadSession;
        var u := if earlier.Some? && earlier.value.address != session.address then Abandon(s, earlier) else s;
        AbandonKeeps(s, earlier);
        KeptByKept(s, u);
        assert GoneSession(u, id) == GoneSession(s, id);
        ChangedKeeps(u, id, learnt);
      case None =>
        ChangedKeeps(s, id, Said(s, id));
        ThenAbandon(s, TakeAwayGone(s, id), id, AddressOf(Said(s, id).uploadSession), SetOf(AddressOf(GoneSession(s, id))), Some(session));
    }
  }

  lemma KeptByKept(s: Store, u: Store)
    requires s.kept == u.kept
    ensures forall id, address: Address :: KeptBy(s, id, address) <==> KeptBy(u, id, address)
  {
  }

  /** The address given is kept, and nothing else is lost. */
  lemma RememberKeeps(s: Store, id: ItemId, unsentSince: Option<nat>, given: UploadSession)
    requires OfRows(s)
    ensures var u := RememberSession(s, id, unsentSince, given).0;
            && OfRows(u)
            && (forall address: Address :: Has(u, address) <==> Has(s, address) || address == given.address)
            && (InOnePlace(s) && !Has(s, given.address) ==> InOnePlace(u))
  {
    hide RememberSession, Said, GoneSession, KeptBy, OneChanged, InOnePlace, Has, KeptSomewhere, Cancelled, StaysInOnePlace;
    RememberIs(s, id, unsentSince, given);
    SessionIsSaidOrGone(s, id);
    var (u, standing) := RememberSession(s, id, unsentSince, given);
    var said, gone := AddressOf(Said(s, id).uploadSession), SetOf(AddressOf(GoneSession(s, id)));
    var session := if standing.Continued? then Some(given.address) else said;
    var abandoned := gone + if standing.Abandoned? then {given.address} else SetOf(said) - {given.address};
    NothingLost(s, u, id, session, abandoned);
    forall address: Address
      ensures KeptBy(s, id, address) ==> Has(s, address)
    {
      KeptIsHad(s, id, address);
    }
    if InOnePlace(s) && !Has(s, given.address) {
      NewHasOnePlace(s, id, unsentSince, given);
      GivenAgainIff(s, id, unsentSince, given);
    }
  }

  /** The item goes on with the session given: it was started for the item's unsent change as its row still has it. */
  ghost predicate IsContinued(s: Store, id: ItemId, unsentSince: Option<nat>, given: UploadSession) {
    id in s.rows && unsentSince.Some? && s.rows[id].unsentSince == unsentSince && ShowsBytes(s.rows[id], given.content)
  }

  /**
    The address given has one place to be: an item that goes on with it goes on with it already, or
    nothing has it; and when it is left to cancel, the item does not go on with it and no other keeps it.
  */
  ghost predicate StaysInOnePlace(s: Store, id: ItemId, unsentSince: Option<nat>, given: UploadSession) {
    if IsContinued(s, id, unsentSince, given) then !Has(s, given.address) || SaidAt(s, id, given.address)
    else !SaidAt(s, id, given.address) && forall other :: other != id ==> !KeptBy(s, other, given.address)
  }

  /** A session given leaves each address in one place exactly when its own has one place to be, as told by what is there before. */
  lemma GivenAgainIff(s: Store, id: ItemId, unsentSince: Option<nat>, given: UploadSession)
    requires OfRows(s) && InOnePlace(s)
    ensures InOnePlace(RememberSession(s, id, unsentSince, given).0) <==> StaysInOnePlace(s, id, unsentSince, given)
  {
    hide RememberSession, Said, GoneSession, KeptBy, OneChanged, InOnePlace, Has, KeptSomewhere, Cancelled;
    RememberIs(s, id, unsentSince, given);
    SessionIsSaidOrGone(s, id);
    OwnIsNoOthers(s, id);
    var (u, standing) := RememberSession(s, id, unsentSince, given);
    var said, gone := AddressOf(Said(s, id).uploadSession), SetOf(AddressOf(GoneSession(s, id)));
    var session := if standing.Continued? then Some(given.address) else said;
    var abandoned := gone + if standing.Abandoned? then {given.address} else SetOf(said) - {given.address};
    if standing.Continued? {
      HadIs(s, id, given.address);
    }
    if StaysInOnePlace(s, id, unsentSince, given) {
      StillInOnePlace(s, u, id, session, abandoned);
    } else {
      TwoPlaces(s, u, id, session, abandoned, given.address);
    }
  }

  /** An address nothing has, the ordinary case, has one place to be. */
  lemma NewHasOnePlace(s: Store, id: ItemId, unsentSince: Option<nat>, given: UploadSession)
    requires OfRows(s) && !Has(s, given.address)
    ensures StaysInOnePlace(s, id, unsentSince, given)
  {
    hide KeptBy, Has, Cancelled, Said;
    NotHadIsNotKept(s, given.address);
    SessionIsSaidOrGone(s, id);
    assert !KeptBy(s, id, given.address);
  }

  // ---------------------------------------------------------------- an address that comes to be in two places

  const FILE := ItemId(2)
  const SENT := Hashed(0, 0, 0, None, None)
  const CONTENT := ChangedHere(0, 0, 0, 1)
  const ROW := Item(Some(Reference("drive", "file")), File, Some(ItemPlace(ROOT, "a")), Some(CONTENT), Some(ItemPlace(ROOT, "a")), Some(SENT), None, None,
                    Some(ItemPlace(ROOT, "a")), Some(SENT), OnDisk, None, Placed, false, 0, 0, false, Some(2))
  const SESSION := UploadSession("address", None, 0, CONTENT, None)

  /** A file that was sent under its first stamp and changed since. */
  function RowsOfOne(): Rows {
    map[ROOT := NewRow(Directory, Some(Reference("drive", "root")), None, None, NotOnDisk, false), FILE := ROW]
  }

  function OneFile(): Store {
    Store(RowsOfOne(), map[], [])
  }

  lemma OneFileTree()
    ensures IsTree(ParentsOf(RowsOfOne()))
  {
    var p: Parents := map[FILE := ROOT];
    assert ParentsOf(RowsOfOne()) == p;
    assert Up(p, ROOT, MAX_CHAIN) == Some([ROOT]);
  }

  lemma OneFileRows()
    ensures RowsOk(RowsOfOne()) && RowsUnique(RowsOfOne()) && forall id <- RowsOfOne() :: NameOk(RowsOfOne()[id])
  {
    var rows := RowsOfOne();
    assert "root"[0] != "file"[0];
    assert RowOk(rows, ROOT, rows[ROOT]);
    assert RowOk(rows, FILE, rows[FILE]);
  }

  lemma OneFileIsValid()
    ensures Valid(Table(RowsOfOne(), 2, 2))
  {
    OneFileTree();
    OneFileRows();
    hide IsTree, RowsOk, RowsUnique, NameOk;
  }

  /** The session of a file's unsent change, and the same address given again under a stamp the row has no more: the file goes on with it, and its cancel is left to send. */
  lemma GivenTwiceIsInTwoPlaces()
    ensures Valid(Table(OneFile().rows, 2, 2)) && OfRows(OneFile()) && InOnePlace(OneFile())
    ensures var s := RememberSession(OneFile(), FILE, Some(2), SESSION).0;
            var u := RememberSession(s, FILE, Some(1), SESSION).0;
            && InOnePlace(s) && SaidAt(u, FILE, "address") && Cancelled(u, "address") && !InOnePlace(u)
  {
    OneFileIsValid();
    hide Valid;
    var t := OneFile();
    var s := RememberSession(t, FILE, Some(2), SESSION).0;
    var memory := ItemMemory(Some(2), Some(SESSION), None, None, None, None, None);
    assert FILE in t.rows && t.rows[FILE] == ROW;
    hide RowsOfOne;
    assert !Cancelled(t, "address") && Said(t, FILE) == NOTHING;
    assert s == t.(kept := map[FILE := memory]);
    var u := RememberSession(s, FILE, Some(1), SESSION).0;
    assert Said(s, FILE) == memory && !Cancelled(s, "address");
    assert u == s.(cancellations := [Cancellation("address", None)]);
    assert u.cancellations[0].address == "address";
    assert KeptBy(u, FILE, "address");
  }

  lemma HadIs(s: Store, id: ItemId, address: Address)
    ensures Has(s, address) <==> Cancelled(s, address) || KeptBy(s, id, address) || exists other :: other != id && KeptBy(s, other, address)
    ensures !Has(s, address) ==> forall other :: !KeptBy(s, other, address)
  {
    hide KeptBy, Cancelled;
    if KeptSomewhere(s, address) {
      var _ := KeptSomewhereIs(s, address);
    }
    forall other
      ensures KeptBy(s, other, address) ==> KeptSomewhere(s, address)
    {
      KeptIs(s, other, address);
    }
  }

  lemma TwoPlaces(s: Store, u: Store, id: ItemId, session: Option<Address>, abandoned: set<Address>, address: Address)
    requires OneChanged(s, u, id, session, abandoned)
    requires
      || (session == Some(address) && (address in abandoned || Cancelled(s, address)))
      || (exists other :: other != id && KeptBy(s, other, address) && (session == Some(address) || address in abandoned))
    ensures !InOnePlace(u)
  {
    hide KeptBy, Cancelled;
    if session == Some(address) {
      assert KeptBy(u, id, address);
    }
    if other :| other != id && KeptBy(s, other, address) {
      assert KeptBy(u, other, address);
    }
  }

  lemma NotHadIsNotKept(s: Store, address: Address)
    requires !Has(s, address)
    ensures forall id :: !KeptBy(s, id, address)
  {
  }

  lemma OwnIsNoOthers(s: Store, id: ItemId)
    requires InOnePlace(s)
    ensures forall address: Address, other :: other != id && KeptBy(s, id, address) ==> !KeptBy(s, other, address)
  {
    hide KeptBy;
  }

  /** A session is advanced where the item's memory answers it; else it is left to cancel, but for another item's. */
  lemma AdvanceKeeps(s: Store, id: ItemId, address: Address, nextOffset: nat, expiresAt: Option<int>)
    requires OfRows(s)
    ensures var (u, standing) := Advance(s, id, address, nextOffset, expiresAt);
            && Safe(s, u, {address}) && u.rows == s.rows
            && (standing.Continued? ==> SaidAt(s, id, address))
            && (standing.Abandoned? ==> Cancelled(u, address))
            && (standing.OfAnotherItem? ==> u == s)
  {
    var (u, standing) := Advance(s, id, address, nextOffset, expiresAt);
    match standing {
      case OfAnotherItem =>
        OfAnotherIsHad(s, id, address);
        AlreadyHad(s, s, address);
      case Continued =>
        ContinuedKeeps(s, id, address, nextOffset, expiresAt);
      case Abandoned =>
        AbandonedKeeps(s, id, address);
    }
  }

  /** It is continued exactly when no other item keeps it, and this one keeps it, under the row's stamp and with the row's bytes. */
  lemma AdvanceIff(s: Store, id: ItemId, address: Address, nextOffset: nat, expiresAt: Option<int>)
    requires OfRows(s)
    ensures var standing := Advance(s, id, address, nextOffset, expiresAt).1;
            && (standing.OfAnotherItem? <==> exists other :: other != id && KeptBy(s, other, address))
            && (standing.Continued? <==>
                  && (forall other :: other != id ==> !KeptBy(s, other, address))
                  && KeptBy(s, id, address)
                  && s.rows[id].unsentSince.Some? && s.kept[id].unsentSince == s.rows[id].unsentSince
                  && ShowsBytes(s.rows[id], s.kept[id].uploadSession.value.content))
  {
    if id in s.rows {
      SaidIff(Kept(s, id), s.rows[id]);
    }
    hide SplitByStanding, Changed, AbandonAddress, TakeAwayGone;
  }

  lemma OfAnotherIsHad(s: Store, id: ItemId, address: Address)
    requires OfRows(s) && exists other <- s.kept :: other != id && KeptBy(s, other, address)
    ensures Safe(s, s, {}) && Has(s, address)
  {
  }

  lemma AlreadyHad(s: Store, u: Store, address: Address)
    requires Safe(s, u, {}) && Has(s, address)
    ensures Safe(s, u, {address})
  {
    hide Has, InOnePlace, OfRows;
  }

  lemma ContinuedKeeps(s: Store, id: ItemId, address: Address, nextOffset: nat, expiresAt: Option<int>)
    requires OfRows(s) && SaidAt(s, id, address)
    ensures var said := Said(s, id);
            var u := Changed(s, id, said.(uploadSession := Some(said.uploadSession.value.(nextOffset := nextOffset, expiresAt := expiresAt))));
            Safe(s, u, {address}) && u.rows == s.rows
  {
    hide Changed, Safe, SplitByStanding, KeptBy, Has;
    var said := Said(s, id);
    var memory := said.(uploadSession := Some(said.uploadSession.value.(nextOffset := nextOffset, expiresAt := expiresAt)));
    SaidStays(s, id, memory);
    SessionIsSaidOrGone(s, id);
    KeptIsHad(s, id, address);
    AlreadyHad(s, Changed(s, id, memory), address);
  }

  lemma AbandonedKeeps(s: Store, id: ItemId, address: Address)
    requires OfRows(s) && !SaidAt(s, id, address) && forall other :: other != id ==> !KeptBy(s, other, address)
    ensures var u := AbandonAddress(TakeAwayGone(s, id), address, None);
            Safe(s, u, {address}) && u.rows == s.rows && Cancelled(u, address)
  {
    hide Safe, SplitByStanding, OneChanged, Changed, GoneSession, AbandonAddress, KeptBy, Cancelled;
    var u, said := TakeAwayGone(s, id), AddressOf(Said(s, id).uploadSession);
    var gone := SetOf(AddressOf(GoneSession(s, id)));
    ChangedKeeps(s, id, Said(s, id));
    SessionIsSaidOrGone(s, id);
    AbandonAddressKeeps(u, address, None);
    AndCancelled(s, u, AbandonAddress(u, address, None), id, said, gone, address);
    OneChangedIsSafe(s, AbandonAddress(u, address, None), id, said, gone + {address}, {address});
  }

  lemma AndCancelled(s: Store, u: Store, v: Store, id: ItemId, session: Option<Address>, abandoned: set<Address>, address: Address)
    requires OneChanged(s, u, id, session, abandoned) && OfRows(u)
    requires v.kept == u.kept && v.rows == u.rows && forall a: Address :: Cancelled(v, a) <==> Cancelled(u, a) || a == address
    ensures OneChanged(s, v, id, session, abandoned + {address}) && OfRows(v) && Cancelled(v, address)
  {
    KeptByKept(u, v);
    hide Cancelled, KeptBy;
  }

  lemma GiveUpKeeps(s: Store, id: ItemId)
    requires OfRows(s)
    ensures Safe(s, AbandonSession(s, id), {})
  {
    hide Safe, SplitByStanding, OneChanged, Changed, Abandon, KeptBy, Cancelled;
    var said := Said(s, id);
    var u := Abandon(s, said.uploadSession);
    AbandonKeeps(s, said.uploadSession);
    SessionIsSaidOrGone(s, id);
    assert GoneSession(u, id) == GoneSession(s, id);
    ChangedKeeps(u, id, said.(uploadSession := None));
    var v := Changed(u, id, said.(uploadSession := None));
    AfterAbandon(s, u, v, id, SetOf(AddressOf(said.uploadSession)), SetOf(AddressOf(GoneSession(s, id))));
    OneChangedIsSafe(s, v, id, None, SetOf(AddressOf(said.uploadSession)) + SetOf(AddressOf(GoneSession(s, id))), {});
  }

  lemma AfterAbandon(s: Store, u: Store, v: Store, id: ItemId, first: set<Address>, second: set<Address>)
    requires u.kept == s.kept && forall address: Address :: Cancelled(u, address) <==> Cancelled(s, address) || address in first
    requires OneChanged(u, v, id, None, second)
    ensures OneChanged(s, v, id, None, first + second)
  {
    KeptByKept(s, u);
    hide Cancelled, KeptBy;
  }

  // ---------------------------------------------------------------- sessions ended and cancelled

  /** The others' addresses are as they were, and of this one it is said where it is left. */
  ghost predicate SafeBut(s: Store, u: Store, reported: Address) {
    && OfRows(u)
    && (forall address: Address :: address != reported ==> (Has(u, address) <==> Has(s, address)))
    && (Has(u, reported) ==> Has(s, reported))
    && (InOnePlace(s) ==> InOnePlace(u))
  }

  lemma SafeButThen(s: Store, u: Store, v: Store, reported: Address)
    requires SafeBut(s, u, reported) && Safe(u, v, {})
    ensures SafeBut(s, v, reported)
    ensures Has(v, reported) <==> Has(u, reported)
  {
    hide Has, InOnePlace, OfRows;
  }

  /** A session that ended is forgotten where this item kept it; another's stays, and so does a cancel left of it. */
  lemma EndedKeeps(s: Store, id: ItemId, reported: Address)
    requires OfRows(s)
    ensures SafeBut(s, ForgetEnded(s, id, reported), reported)
    ensures Has(ForgetEnded(s, id, reported), reported) <==> Cancelled(s, reported) || exists other :: other != id && KeptBy(s, other, reported)
  {
    hide SafeBut, Has, TakeAwayGone, Cancelled;
    var u := if KeptBy(s, id, reported) then Write(s, id, s.kept[id].(uploadSession := None)) else s;
    if KeptBy(s, id, reported) {
      WriteKeeps(s, id, s.kept[id].(uploadSession := None));
      TakenOut(s, u, id, reported);
    } else {
      NotTakenOut(s, id, reported);
    }
    TakeAwayKeeps(u, id);
    SafeButThen(s, u, TakeAwayGone(u, id), reported);
  }

  lemma NotTakenOut(s: Store, id: ItemId, reported: Address)
    requires OfRows(s) && !KeptBy(s, id, reported)
    ensures SafeBut(s, s, reported) && OfRows(s)
    ensures Has(s, reported) <==> Cancelled(s, reported) || exists other :: other != id && KeptBy(s, other, reported)
  {
    hide KeptBy, Cancelled;
    if other :| KeptBy(s, other, reported) {
      KeptIs(s, other, reported);
    }
    if KeptSomewhere(s, reported) {
      var _ := KeptSomewhereIs(s, reported);
    }
  }

  lemma TakenOut(s: Store, u: Store, id: ItemId, reported: Address)
    requires OfRows(s) && KeptBy(s, id, reported) && OneChanged(s, u, id, None, {})
    requires u.kept.Keys <= s.kept.Keys + {id} && u.rows == s.rows
    ensures SafeBut(s, u, reported) && OfRows(u)
    ensures Has(u, reported) <==> Cancelled(s, reported) || exists other :: other != id && KeptBy(s, other, reported)
  {
    assert id in s.kept;
    hide Cancelled;
    forall address: Address
      ensures KeptSomewhere(u, address) <==> exists other :: other != id && KeptBy(s, other, address)
    {
      if KeptSomewhere(u, address) {
        var holder := KeptSomewhereIs(u, address);
        assert KeptBy(s, holder, address);
      }
      if other :| other != id && KeptBy(s, other, address) {
        KeptIs(u, other, address);
      }
    }
    OnlyOne(s, id, reported);
  }

  lemma OnlyOne(s: Store, id: ItemId, reported: Address)
    requires KeptBy(s, id, reported)
    ensures forall address: Address :: address != reported ==> (KeptSomewhere(s, address) <==> exists other :: other != id && KeptBy(s, other, address))
  {
    forall address: Address | address != reported
      ensures KeptSomewhere(s, address) <==> exists other :: other != id && KeptBy(s, other, address)
    {
      if KeptSomewhere(s, address) {
        var holder := KeptSomewhereIs(s, address);
      }
      if other :| other != id && KeptBy(s, other, address) {
        KeptIs(s, other, address);
      }
    }
  }

  lemma {:induction false} WithoutIs(cancellations: seq<Cancellation>, reported: Address)
    ensures forall c :: c in Without(cancellations, reported) <==> c in cancellations && c.address != reported
  {
    if cancellations != [] {
      WithoutIs(cancellations[1..], reported);
      assert cancellations == [cancellations[0]] + cancellations[1..];
    }
  }

  lemma ForgetCancelKeeps(s: Store, reported: Address)
    requires OfRows(s)
    ensures SafeBut(s, ForgetCancel(s, reported), reported)
    ensures forall address: Address :: Cancelled(ForgetCancel(s, reported), address) <==> Cancelled(s, address) && address != reported
  {
    WithoutIs(s.cancellations, reported);
    var u := ForgetCancel(s, reported);
    forall address: Address
      ensures Cancelled(u, address) <==> Cancelled(s, address) && address != reported
    {
      if Cancelled(s, address) && address != reported {
        var c :| c in s.cancellations && c.address == address;
        assert c in u.cancellations;
      }
    }
    KeptByKept(s, u);
    hide Cancelled, KeptBy;
  }

  /** What is kept after the gone was taken away of some items. */
  lemma {:induction false} TakenAway(s: Store, items: seq<ItemId>, id: ItemId)
    requires OfRows(s)
    ensures Said(TakeAwayGoneOf(s, items), id) == Said(s, id)
    ensures Kept(TakeAwayGoneOf(s, items), id) == if id in items then Said(s, id) else Kept(s, id)
  {
    hide SplitByStanding;
    if items != [] {
      var before, last := items[..|items| - 1], items[|items| - 1];
      var u := TakeAwayGoneOf(s, before);
      TakenAway(s, before, id);
      TakenAway(s, before, last);
      TakeAwayAllKeeps(s, before);
      hide TakeAwayGoneOf;
      OneTakenAway(u, last, id);
      assert items == before + [last];
    }
  }

  lemma OneTakenAway(s: Store, last: ItemId, id: ItemId)
    ensures Kept(TakeAwayGone(s, last), id) == if id == last then Said(s, id) else Kept(s, id)
    ensures Said(TakeAwayGone(s, last), id) == Said(s, id)
  {
    if last in s.rows {
      PartsAreWhole(Kept(s, last), s.rows[last]);
      SaidIsNormal(Kept(s, last), s.rows[last]);
      AbandonKeeps(s, GoneSession(s, last));
    }
    hide SplitByStanding, Abandon, GoneSession;
  }

  lemma SaidIsNormal(memory: ItemMemory, row: Item)
    ensures SplitByStanding(memory, row).said.WithStampOfFacts() == SplitByStanding(memory, row).said
  {
  }

  /** A session reported cancelled is forgotten, but where an item's memory answers it. */
  lemma CancelledKeeps(s: Store, reported: Address, holders: seq<ItemId>)
    requires OfRows(s)
    requires forall id: ItemId :: KeptBy(s, id, reported) ==> id in holders
    ensures SafeBut(s, ForgetCancellation(s, reported, holders), reported)
    ensures Has(ForgetCancellation(s, reported, holders), reported) <==> exists id :: SaidAt(s, id, reported)
  {
    hide SafeBut, Has, KeptBy, OfRows, TakeAwayGoneOf, ForgetCancel, Cancelled, SaidAt;
    var u := ForgetCancel(s, reported);
    ForgetCancelKeeps(s, reported);
    SafeButIsOfRows(s, u, reported);
    TakeAwayAllKeeps(u, holders);
    var v := TakeAwayGoneOf(u, holders);
    SafeIsOfRows(u, v, {});
    SafeButThen(s, u, v, reported);
    ForgetCancelKeeps(v, reported);
    SafeButTwice(s, v, ForgetCancel(v, reported), reported);
    LeftOf(s, u, v, holders, reported);
    HadIsKept(ForgetCancel(v, reported), reported);
    forall id: ItemId
      ensures KeptBy(ForgetCancel(v, reported), id, reported) <==> SaidAt(s, id, reported)
    {
      KeptStays(v, reported, id);
    }
  }

  lemma SafeButIsOfRows(s: Store, u: Store, reported: Address)
    requires SafeBut(s, u, reported)
    ensures OfRows(u)
  {
  }

  lemma SafeButTwice(s: Store, u: Store, v: Store, reported: Address)
    requires SafeBut(s, u, reported) && SafeBut(u, v, reported)
    ensures SafeBut(s, v, reported)
  {
    hide Has, InOnePlace, OfRows;
  }

  lemma KeptStays(s: Store, reported: Address, id: ItemId)
    ensures KeptBy(ForgetCancel(s, reported), id, reported) <==> KeptBy(s, id, reported)
  {
  }

  lemma HadIsKept(s: Store, reported: Address)
    requires !Cancelled(s, reported)
    ensures Has(s, reported) <==> exists id :: KeptBy(s, id, reported)
  {
    if id :| KeptBy(s, id, reported) {
      KeptIs(s, id, reported);
    }
  }

  lemma LeftOf(s: Store, u: Store, v: Store, holders: seq<ItemId>, reported: Address)
    requires OfRows(s) && OfRows(u) && u == ForgetCancel(s, reported) && v == TakeAwayGoneOf(u, holders)
    requires forall id: ItemId :: KeptBy(s, id, reported) ==> id in holders
    ensures forall id: ItemId :: KeptBy(v, id, reported) <==> SaidAt(s, id, reported)
  {
    hide TakeAwayGoneOf;
    forall id: ItemId
      ensures KeptBy(v, id, reported) <==> SaidAt(s, id, reported)
    {
      TakenAway(u, holders, id);
      KeptIs(v, id, reported);
      KeptIs(s, id, reported);
      SessionIsSaidOrGone(s, id);
      SaidOfSame(s, u, id);
      hide Said;
    }
  }

  lemma SaidOfSame(s: Store, u: Store, id: ItemId)
    requires u.rows == s.rows && u.kept == s.kept
    ensures Said(u, id) == Said(s, id) && Kept(u, id) == Kept(s, id)
  {
  }
}
