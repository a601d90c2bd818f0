/**
  The strings that say why a change waits or failed, parsed and printed: nothing of any
  string is lost on the way there and back.
*/
module Reasons {
  import opened Wrappers
  import opened ReasonText

  datatype Group = OneAction | PerFile | Waiting

  datatype Sizes = Sizes(needs: U64, free: U64)

  datatype Reason =
    | OpenForWriting
    | NameCharacters
    | NameSpaces
    | NameReserved
    | NameNotUtf8
    | TooLarge
    | Quota
    | Forbidden
    | Refused(message: Option<string>)
    | Locked
    | NotFound
    | Changed
    | Parent
    | Hash
    | Paused
    | SessionOpen
    | NameHeld
    | ChangedAgain
    | SessionEnded
    | NotAllowed(why: Option<string>)
    | Blocked
    | NotReadOnDisk
    | BeingChecked
    | QuietTime
    | Network
    | LocalIo
    | Store
    | Failed
    | WaitingForSpace
    | TooBig(sizes: Option<Sizes>)
    /** Whatever else stands in the database; it is written back unchanged. */
    | Other(stored: string)

  const TOO_BIG_PREFIX: string := "too-big:"
  const TOO_BIG_KEY: string := "too-big"

  /** The spelling of a variant without its detail: the contract with the database and the clients. */
  function NamedKey(reason: Reason): string
    requires !reason.Other?
  {
    match reason
    case OpenForWriting => "open-for-writing"
    case NameCharacters => "name-characters"
    case NameSpaces => "name-spaces"
    case NameReserved => "name-reserved"
    case NameNotUtf8 => "name-not-utf8"
    case TooLarge => "too-large"
    case Quota => "quota-exceeded"
    case Forbidden => "forbidden"
    case Refused(_) => "refused"
    case Locked => "locked"
    case NotFound => "not-found"
    case Changed => "changed-while-sending"
    case Parent => "parent-not-in-onedrive"
    case Hash => "hash-mismatch"
    case Paused => "paused"
    case SessionOpen => "upload-session-open"
    case NameHeld => "name-held-by-an-upload"
    case ChangedAgain => "changed in OneDrive again and again"
    case SessionEnded => "the upload session ended twice"
    case NotAllowed(_) => "not allowed now"
    case Blocked => "blocked"
    case NotReadOnDisk => "not-read-on-disk"
    case BeingChecked => "being-checked"
    case QuietTime => "quiet-time"
    case Network => "network"
    case LocalIo => "local-error"
    case Store => "index-error"
    case Failed => "upload-error"
    case WaitingForSpace => "waiting-for-space"
    case TooBig(_) => "too-big"
  }

  /** Every variant but the last, those with a detail without it. */
  const ALL: seq<Reason> := [
    OpenForWriting, NameCharacters, NameSpaces, NameReserved, NameNotUtf8, TooLarge,
    Quota, Forbidden, Refused(None), Locked, NotFound, Changed,
    Parent, Hash, Paused, SessionOpen, NameHeld, ChangedAgain,
    SessionEnded, NotAllowed(None), Blocked, NotReadOnDisk, BeingChecked, QuietTime,
    Network, LocalIo, Store, Failed, WaitingForSpace, TooBig(None)
  ]

  function Find(reasons: seq<Reason>, key: string): Option<Reason> {
    if reasons == [] then None
    else if !reasons[0].Other? && NamedKey(reasons[0]) == key then Some(reasons[0])
    else Find(reasons[1..], key)
  }

  /** The variant spelled exactly so, without a detail. */
  function FromKey(key: string): Option<Reason> {
    Find(ALL, key)
  }

  function GroupOf(reason: Reason): Group
    requires !reason.Other?
  {
    match reason
    case Quota | WaitingForSpace | TooBig(_) | Forbidden => OneAction
    case NameCharacters | NameSpaces | NameReserved | NameNotUtf8 | TooLarge | Refused(_) => PerFile
    case NotReadOnDisk | Blocked => PerFile
    case _ => Waiting
  }

  predicate IsBare(reason: Reason) {
    match reason
    case Refused(message) => message.None?
    case NotAllowed(why) => why.None?
    case TooBig(sizes) => sizes.None?
    case Other(_) => false
    case _ => true
  }

  function Bare(reason: Reason): Reason
    requires !reason.Other?
  {
    match reason
    case Refused(_) => Refused(None)
    case NotAllowed(_) => NotAllowed(None)
    case TooBig(_) => TooBig(None)
    case _ => reason
  }

  /** Where a variant stands in the order they are declared. */
  function Rank(reason: Reason): nat {
    match reason
    case OpenForWriting => 0
    case NameCharacters => 1
    case NameSpaces => 2
    case NameReserved => 3
    case NameNotUtf8 => 4
    case TooLarge => 5
    case Quota => 6
    case Forbidden => 7
    case Refused(_) => 8
    case Locked => 9
    case NotFound => 10
    case Changed => 11
    case Parent => 12
    case Hash => 13
    case Paused => 14
    case SessionOpen => 15
    case NameHeld => 16
    case ChangedAgain => 17
    case SessionEnded => 18
    case NotAllowed(_) => 19
    case Blocked => 20
    case NotReadOnDisk => 21
    case BeingChecked => 22
    case QuietTime => 23
    case Network => 24
    case LocalIo => 25
    case Store => 26
    case Failed => 27
    case WaitingForSpace => 28
    case TooBig(_) => 29
    case Other(_) => 30
  }

  /** The same, read off the length of the key and one of its characters. */
  function RankOfKey(key: string): nat {
    match |key|
    case 6 => if key[0] == 'l' then 9 else 14
    case 7 => if key[0] == 'r' then 8 else if key[0] == 'b' then 20 else if key[0] == 'n' then 24 else 29
    case 9 => if key[0] == 't' then 5 else if key[0] == 'f' then 7 else 10
    case 10 => 23
    case 11 => if key[0] == 'n' then 2 else if key[0] == 'l' then 25 else 26
    case 12 => 27
    case 13 => if key[5] == 'r' then 3 else if key[5] == 'n' then 4 else if key[5] == 'm' then 13 else 22
    case 14 => 6
    case 15 => if key[1] == 'a' then 1 else 19
    case 16 => if key[0] == 'o' then 0 else 21
    case 17 => 28
    case 19 => 15
    case 21 => 11
    case 22 => if key[0] == 'p' then 12 else 16
    case 30 => 18
    case 35 => 17
    case _ => 30
  }

  lemma KeyTellsRank(reason: Reason)
    requires !reason.Other?
    ensures RankOfKey(NamedKey(reason)) == Rank(reason)
  {
  }

  lemma SameRankSameReason(a: Reason, b: Reason)
    requires IsBare(a) && IsBare(b) && Rank(a) == Rank(b)
    ensures a == b
  {
  }

  lemma AllAreBare()
    ensures forall reason <- ALL :: IsBare(reason)
  {
  }

  lemma BareIsInAll(reason: Reason)
    requires IsBare(reason)
    ensures reason in ALL
  {
  }

  lemma {:induction false} FindFinds(reasons: seq<Reason>, key: string)
    ensures match Find(reasons, key)
            case Some(reason) => reason in reasons && !reason.Other? && NamedKey(reason) == key
            case None => forall reason <- reasons :: reason.Other? || NamedKey(reason) != key
  {
    if reasons != [] {
      FindFinds(reasons[1..], key);
    }
  }

  /** A key finds the one variant that is spelled so. */
  lemma FoundByKey(key: string)
    requires FromKey(key).Some?
    ensures IsBare(FromKey(key).value) && NamedKey(FromKey(key).value) == key
  {
    hide ALL, NamedKey;
    AllAreBare();
    FindFinds(ALL, key);
  }

  lemma KeyIsFound(reason: Reason)
    requires !reason.Other?
    ensures FromKey(NamedKey(reason)) == Some(Bare(reason))
  {
    hide ALL, RankOfKey;
    var key := NamedKey(reason);
    FindFinds(ALL, key);
    BareIsInAll(Bare(reason));
    BareHasKey(reason);
    hide NamedKey, Rank;
    FoundByKey(key);
    KeyTellsRank(reason);
    KeyTellsRank(FromKey(key).value);
    BareHasRank(reason);
    SameRankSameReason(FromKey(key).value, Bare(reason));
  }

  lemma BareHasKey(reason: Reason)
    requires !reason.Other?
    ensures IsBare(Bare(reason)) && NamedKey(Bare(reason)) == NamedKey(reason) && GroupOf(Bare(reason)) == GroupOf(reason)
  {
  }

  lemma BareHasRank(reason: Reason)
    requires !reason.Other?
    ensures Rank(Bare(reason)) == Rank(reason)
  {
  }

  lemma KeyHasNoColonBelow10(reason: Reason)
    requires Rank(reason) < 10
    ensures ':' !in NamedKey(reason)
  {
  }

  lemma KeyHasNoColonBelow16(reason: Reason)
    requires 10 <= Rank(reason) < 16
    ensures ':' !in NamedKey(reason)
  {
  }

  lemma KeyHasNoColonBelow18(reason: Reason)
    requires 16 <= Rank(reason) < 18
    ensures ':' !in NamedKey(reason)
  {
    if reason.NameHeld? {
    } else {
      assert reason.ChangedAgain?;
    }
  }

  lemma KeyHasNoColonBelow20(reason: Reason)
    requires 18 <= Rank(reason) < 20
    ensures ':' !in NamedKey(reason)
  {
  }

  lemma KeyHasNoColonFrom20(reason: Reason)
    requires 20 <= Rank(reason) < 30
    ensures ':' !in NamedKey(reason)
  {
  }

  /** No key has a colon. */
  lemma KeyHasNoColon(reason: Reason)
    requires !reason.Other?
    ensures ':' !in NamedKey(reason)
  {
    hide NamedKey;
    if Rank(reason) < 10 {
      KeyHasNoColonBelow10(reason);
    } else if Rank(reason) < 16 {
      KeyHasNoColonBelow16(reason);
    } else if Rank(reason) < 18 {
      KeyHasNoColonBelow18(reason);
    } else if Rank(reason) < 20 {
      KeyHasNoColonBelow20(reason);
    } else {
      KeyHasNoColonFrom20(reason);
    }
  }

  // ---------------------------------------------------------------- reading and writing

  /** The two sizes in a string of a file too big, where they stand alone. */
  function TooBigSizes(stored: string): Option<Sizes> {
    match StripPrefix(stored, TOO_BIG_PREFIX)
    case None => None
    case Some(rest) =>
      match SplitOnce(rest, ":")
      case None => None
      case Some(split) =>
        match (ParseNumber(split.before), ParseNumber(split.after))
        case (Some(needs), Some(free)) => Some(Sizes(needs, free))
        case _ => None
  }

  function PrintSizes(sizes: Sizes): string {
    PrintNumber(sizes.needs) + ":" + PrintNumber(sizes.free)
  }

  /** Reasons with one key are counted together; a string that is unknown is counted by itself. */
  function KeyOf(stored: string): string {
    if TooBigSizes(stored).Some? then TOO_BIG_KEY
    else
      match SplitOnce(stored, ": ")
      case Some(split) => if KnownGroup(split.before).Some? then split.before else stored
      case None => stored
  }

  function KnownGroup(key: string): Option<Group> {
    match FromKey(key)
    case Some(reason) => FoundByKey(key); Some(GroupOf(reason))
    case None => None
  }

  /** What stands behind the key in a string no variant spells. */
  function DetailOf(stored: string): Option<string> {
    match StripPrefix(stored, KeyOf(stored))
    case None => None
    case Some(rest) =>
      match StripPrefix(rest, ": ")
      case Some(detail) => Some(detail)
      case None => StripPrefix(rest, ":")
  }

  function Key(reason: Reason): string {
    if reason.Other? then KeyOf(reason.stored) else NamedKey(reason)
  }

  function Detail(reason: Reason): Option<string> {
    match reason
    case Refused(message) => message
    case NotAllowed(why) => why
    case TooBig(Some(sizes)) => Some(PrintSizes(sizes))
    case Other(stored) => DetailOf(stored)
    case _ => None
  }

  /** How a row kept back so is presented; an unknown string says nothing of it. */
  function GroupFor(reason: Reason): Option<Group> {
    if reason.Other? then KnownGroup(KeyOf(reason.stored)) else Some(GroupOf(reason))
  }

  function SizesOf(reason: Reason): Option<Sizes> {
    match reason
    case TooBig(sizes) => sizes
    case Other(stored) => TooBigSizes(stored)
    case _ => None
  }

  predicate WaitsForSpace(reason: Reason) {
    match reason
    case WaitingForSpace => true
    case TooBig(sizes) => sizes.Some?
    case Other(stored) => StartsWith(stored, TOO_BIG_PREFIX)
    case _ => false
  }

  /** The stored spelling, whole. */
  function Print(reason: Reason): string {
    match reason
    case Other(stored) => stored
    case TooBig(Some(sizes)) => TOO_BIG_PREFIX + PrintSizes(sizes)
    case _ => if Detail(reason).Some? then Key(reason) + ": " + Detail(reason).value else Key(reason)
  }

  /** The reason with this detail, where it is one of the two that have any. */
  function With(reason: Reason, detail: string): Option<Reason> {
    match reason
    case Refused(_) => Some(Refused(Some(detail)))
    case NotAllowed(_) => Some(NotAllowed(Some(detail)))
    case _ => None
  }

  function ParseDetailed(stored: string): Option<Reason> {
    match SplitOnce(stored, ": ")
    case None => None
    case Some(split) =>
      match FromKey(split.before)
      case None => None
      case Some(reason) => With(reason, split.after)
  }

  /** The reason a stored string spells. */
  function Parse(stored: string): Reason {
    if FromKey(stored).Some? then FromKey(stored).value
    else if TooBigSizes(stored).Some? && Print(TooBig(TooBigSizes(stored))) == stored then TooBig(TooBigSizes(stored))
    else if ParseDetailed(stored).Some? then ParseDetailed(stored).value
    else Other(stored)
  }

  // ---------------------------------------------------------------- they undo each other

  /** A string without a colon has no sizes and no detail. */
  lemma NoColon(stored: string)
    requires ':' !in stored
    ensures TooBigSizes(stored).None? && ParseDetailed(stored).None? && !StartsWith(stored, TOO_BIG_PREFIX)
    ensures SplitOnce(stored, ": ").None?
  {
    NothingToSplit(stored, ": ");
    if StartsWith(stored, TOO_BIG_PREFIX) {
      PrefixStands(stored);
    }
  }

  lemma PrefixStands(stored: string)
    requires StartsWith(stored, TOO_BIG_PREFIX)
    ensures ':' in stored && stored[0] == 't'
  {
    assert stored[..8][7] == stored[7] && stored[..8][0] == stored[0];
  }

  /** The sizes stand alone behind their prefix: there is no detail behind a key as well. */
  lemma SizesHaveNoSpace(stored: string)
    requires TooBigSizes(stored).Some?
    ensures ' ' !in stored && StartsWith(stored, TOO_BIG_PREFIX)
  {
    hide SplitOnce, ParseNumber;
    var rest := stored[|TOO_BIG_PREFIX|..];
    var split := SplitOnce(rest, ":").value;
    SplitJoins(rest, ":");
    NumberHasNo(split.before, ' ');
    NumberHasNo(split.after, ' ');
    NoneInJoin(split.before, ":", split.after, ' ');
    NoneInJoin("", TOO_BIG_PREFIX, rest, ' ');
    assert stored == "" + TOO_BIG_PREFIX + rest;
  }

  lemma NoneInJoin(before: string, separator: string, after: string, c: char)
    requires c !in before && c !in separator && c !in after
    ensures c !in before + separator + after
  {
  }

  lemma SplitHasSpace(stored: string)
    requires SplitOnce(stored, ": ").Some?
    ensures ' ' in stored
  {
    SplitJoins(stored, ": ");
    var split := SplitOnce(stored, ": ").value;
    assert stored[|split.before| + 1] == ' ';
  }

  lemma DetailedIs(stored: string)
    requires ParseDetailed(stored).Some?
    ensures SplitOnce(stored, ": ").Some?
    ensures var reason := ParseDetailed(stored).value;
            && (reason.Refused? || reason.NotAllowed?)
            && Detail(reason).Some?
            && SplitOnce(stored, ": ").value.before == NamedKey(reason)
            && stored == NamedKey(reason) + ": " + Detail(reason).value
  {
    var split := SplitOnce(stored, ": ").value;
    SplitJoins(stored, ": ");
    FoundByKey(split.before);
    hide FromKey;
  }

  /** For every string: what is parsed of it prints back as it stood, byte for byte. */
  lemma PrintOfParse(stored: string)
    ensures Print(Parse(stored)) == stored
  {
    hide FromKey, NamedKey, TooBigSizes, ParseDetailed;
    if FromKey(stored).Some? {
      FoundByKey(stored);
    } else if TooBigSizes(stored).Some? && Print(TooBig(TooBigSizes(stored))) == stored {
    } else if ParseDetailed(stored).Some? {
      DetailedIs(stored);
    }
  }

  lemma DetailedKey(key: string, detail: string)
    requires ':' !in key && FromKey(key).Some? && With(FromKey(key).value, detail).Some?
    ensures ParseDetailed(key + ": " + detail) == With(FromKey(key).value, detail)
    ensures FromKey(key + ": " + detail).None?
  {
    hide FromKey, With;
    JoinSplits(key, ": ", detail);
    var stored := key + ": " + detail;
    assert stored[|key|] == ':';
    if FromKey(stored).Some? {
      FoundByKey(stored);
      KeyHasNoColon(FromKey(stored).value);
    }
  }

  lemma SizesRoundTrip(sizes: Sizes)
    ensures TooBigSizes(TOO_BIG_PREFIX + PrintSizes(sizes)) == Some(sizes)
    ensures FromKey(TOO_BIG_PREFIX + PrintSizes(sizes)).None?
  {
    hide FromKey;
    var stored := TOO_BIG_PREFIX + PrintSizes(sizes);
    assert StripPrefix(stored, TOO_BIG_PREFIX) == Some(PrintSizes(sizes));
    assert ':' !in PrintNumber(sizes.needs);
    JoinSplits(PrintNumber(sizes.needs), ":", PrintNumber(sizes.free));
    NumberRoundTrip(sizes.needs);
    NumberRoundTrip(sizes.free);
    assert stored[7] == ':';
    if FromKey(stored).Some? {
      FoundByKey(stored);
      KeyHasNoColon(FromKey(stored).value);
    }
  }

  /** For every named reason, with any detail or sizes: parsing its print gives it back. */
  lemma ParseOfPrint(reason: Reason)
    requires !reason.Other?
    ensures Parse(Print(reason)) == reason
  {
    hide FromKey, TooBigSizes, ParseDetailed, NamedKey;
    KeyIsFound(reason);
    KeyHasNoColon(reason);
    if reason.TooBig? && reason.sizes.Some? {
      SizesRoundTrip(reason.sizes.value);
    } else if Detail(reason).Some? {
      DetailedKey(NamedKey(reason), Detail(reason).value);
      DetailedIs(Print(reason));
      DetailedHasSpace(Print(reason));
    }
  }

  lemma DetailedHasSpace(stored: string)
    requires ParseDetailed(stored).Some?
    ensures TooBigSizes(stored).None?
  {
    SplitHasSpace(stored);
    if TooBigSizes(stored).Some? {
      SizesHaveNoSpace(stored);
    }
  }

  /** For every string: its key is the key of the reason it spells, and so are its group and its sizes. */
  lemma KeyOfIsKeyOfParse(stored: string)
    ensures KeyOf(stored) == Key(Parse(stored))
    ensures KnownGroup(KeyOf(stored)) == GroupFor(Parse(stored))
    ensures TooBigSizes(stored) == SizesOf(Parse(stored))
  {
    hide FromKey, TooBigSizes, ParseDetailed, NamedKey, GroupOf;
    if FromKey(stored).Some? {
      FoundByKey(stored);
      KeyHasNoColon(FromKey(stored).value);
      NoColon(stored);
    } else if TooBigSizes(stored).Some? && Print(TooBig(TooBigSizes(stored))) == stored {
      KeyIsFound(TooBig(None));
      TooBigIsNamed();
    } else if ParseDetailed(stored).Some? {
      DetailedIs(stored);
      DetailedHasSpace(stored);
      KeyIsFound(ParseDetailed(stored).value);
      BareHasKey(ParseDetailed(stored).value);
    }
  }

  lemma TooBigIsNamed()
    ensures forall sizes :: NamedKey(TooBig(sizes)) == TOO_BIG_KEY && GroupOf(TooBig(sizes)) == OneAction
  {
  }

  /** A key of the table with a detail behind it. */
  ghost predicate IsKeyWithDetail(stored: string, key: string) {
    exists reason: Reason, detail: string :: !reason.Other? && key == NamedKey(reason) && stored == key + ": " + detail
  }

  /** Two numbers behind the prefix of a file too big, and nothing else. */
  ghost predicate IsTooBigWithSizes(stored: string) {
    exists needs: string, free: string :: ParseNumber(needs).Some? && ParseNumber(free).Some? && stored == "too-big:" + needs + ":" + free
  }

  lemma SizesIff(stored: string)
    ensures TooBigSizes(stored).Some? <==> IsTooBigWithSizes(stored)
  {
    hide ParseNumber, SplitOnce;
    if TooBigSizes(stored).Some? {
      var rest := stored[8..];
      var split := SplitOnce(rest, ":").value;
      SplitJoins(rest, ":");
      assert stored == "too-big:" + split.before + ":" + split.after;
    }
    if needs, free :| ParseNumber(needs).Some? && ParseNumber(free).Some? && stored == "too-big:" + needs + ":" + free {
      NumberHasNo(needs, ':');
      JoinSplits(needs, ":", free);
      assert stored[8..] == needs + ":" + free && stored[..8] == TOO_BIG_PREFIX;
    }
  }

  lemma KeyWithDetailSplits(stored: string, key: string)
    requires IsKeyWithDetail(stored, key)
    ensures SplitOnce(stored, ": ").Some? && SplitOnce(stored, ": ").value.before == key && KnownGroup(key).Some? && ' ' in stored
  {
    hide SplitOnce, NamedKey, FromKey, GroupOf;
    var reason: Reason, detail :| !reason.Other? && key == NamedKey(reason) && stored == key + ": " + detail;
    KeyHasNoColon(reason);
    JoinSplits(key, ": ", detail);
    KeyIsFound(reason);
    assert stored[|key| + 1] == ' ';
  }

  lemma KnownSplitIsKeyWithDetail(stored: string)
    requires SplitOnce(stored, ": ").Some? && KnownGroup(SplitOnce(stored, ": ").value.before).Some?
    ensures IsKeyWithDetail(stored, SplitOnce(stored, ": ").value.before)
  {
    hide SplitOnce, NamedKey, FromKey, GroupOf;
    var split := SplitOnce(stored, ": ").value;
    SplitJoins(stored, ": ");
    FoundByKey(split.before);
    assert stored == split.before + ": " + split.after;
    assert !FromKey(split.before).value.Other? && split.before == NamedKey(FromKey(split.before).value);
  }

  /** For every string: it is summed under too-big when it names two sizes, under the key of the table that stands before a detail, and else under itself. */
  lemma KeyOfIs(stored: string)
    ensures IsTooBigWithSizes(stored) ==> KeyOf(stored) == "too-big"
    ensures forall key :: IsKeyWithDetail(stored, key) ==> KeyOf(stored) == key
    ensures !IsTooBigWithSizes(stored) && (forall key :: !IsKeyWithDetail(stored, key)) ==> KeyOf(stored) == stored
  {
    hide SplitOnce, NamedKey, FromKey, GroupOf, TooBigSizes, ParseNumber, KnownGroup, IsKeyWithDetail, IsTooBigWithSizes;
    SizesIff(stored);
    if TooBigSizes(stored).Some? {
      SizesHaveNoSpace(stored);
    } else if SplitOnce(stored, ": ").Some? && KnownGroup(SplitOnce(stored, ": ").value.before).Some? {
      KnownSplitIsKeyWithDetail(stored);
    }
    forall key
      ensures IsKeyWithDetail(stored, key) ==> TooBigSizes(stored).None? && KeyOf(stored) == key
    {
      if IsKeyWithDetail(stored, key) {
        KeyWithDetailSplits(stored, key);
      }
    }
  }

  /** For every string: its row waits for space exactly when it says so, or names a file too big for it. */
  lemma WaitsForSpaceIff(stored: string)
    ensures WaitsForSpace(Parse(stored)) <==> stored == "waiting-for-space" || StartsWith(stored, TOO_BIG_PREFIX)
  {
    hide FromKey, TooBigSizes, ParseDetailed, NamedKey;
    WaitingIsFound();
    if FromKey(stored).Some? {
      FoundByKey(stored);
      KeyHasNoColon(FromKey(stored).value);
      NoColon(stored);
      NamedWaits(FromKey(stored).value);
    } else if TooBigSizes(stored).Some? && Print(TooBig(TooBigSizes(stored))) == stored {
      SizesHaveNoSpace(stored);
    } else if ParseDetailed(stored).Some? {
      DetailedIs(stored);
      DetailedIsNotTooBig(ParseDetailed(stored).value, Detail(ParseDetailed(stored).value).value);
    }
  }

  lemma WaitingIsFound()
    ensures FromKey("waiting-for-space") == Some(WaitingForSpace)
  {
    hide FromKey;
    KeyIsFound(WaitingForSpace);
  }

  lemma NamedWaits(reason: Reason)
    requires IsBare(reason)
    ensures WaitsForSpace(reason) <==> NamedKey(reason) == "waiting-for-space"
  {
  }

  lemma DetailedIsNotTooBig(reason: Reason, detail: string)
    requires reason.Refused? || reason.NotAllowed?
    ensures !StartsWith(NamedKey(reason) + ": " + detail, TOO_BIG_PREFIX)
  {
    var stored := NamedKey(reason) + ": " + detail;
    assert stored[0] == NamedKey(reason)[0];
    if StartsWith(stored, TOO_BIG_PREFIX) {
      PrefixStands(stored);
    }
  }

  /** For every string: the key and what stands behind it are the whole string. */
  lemma KeyAndDetailAreAll(stored: string)
    ensures var key := KeyOf(stored);
            match DetailOf(stored)
            case Some(detail) => stored == key + ": " + detail || (stored == key + ":" + detail && (detail == "" || detail[0] != ' '))
            case None => stored == key
  {
    hide FromKey, KnownGroup, NamedKey, TooBigSizes, SplitOnce;
    var key := KeyOf(stored);
    if TooBigSizes(stored).Some? {
      SizesHaveNoSpace(stored);
      TooBigKeyAndRest(stored);
    } else if SplitOnce(stored, ": ").Some? {
      SplitJoins(stored, ": ");
      var split := SplitOnce(stored, ": ").value;
      if key == split.before {
        assert stored[|key|..] == ": " + split.after;
      }
    }
    if key == stored {
      assert stored[|stored|..] == "";
    } else {
      assert StartsWith(stored, key);
      assert stored == key + stored[|key|..];
    }
  }

  /** For every string: so are the key and the detail of the reason it spells. */
  lemma KeyAndDetailOfParse(stored: string)
    ensures var reason := Parse(stored);
            match Detail(reason)
            case Some(detail) => stored == Key(reason) + ": " + detail || (stored == Key(reason) + ":" + detail && (detail == "" || detail[0] != ' '))
            case None => stored == Key(reason)
  {
    var reason := Parse(stored);
    PrintOfParse(stored);
    if reason.Other? {
      OtherIsItself(stored);
      KeyAndDetailAreAll(stored);
    } else if reason.TooBig? && reason.sizes.Some? {
      SizesBeginWithDigit(reason.sizes.value);
      TooBigIsNamed();
    }
    hide Parse, NamedKey, KeyOf, DetailOf, PrintSizes;
  }

  lemma OtherIsItself(stored: string)
    requires Parse(stored).Other?
    ensures Parse(stored).stored == stored
  {
    hide FromKey, NamedKey, TooBigSizes, ParseDetailed;
    if FromKey(stored).Some? {
      FoundByKey(stored);
    } else if ParseDetailed(stored).Some? {
      DetailedIs(stored);
    }
  }

  lemma SizesBeginWithDigit(sizes: Sizes)
    ensures PrintSizes(sizes) != "" && PrintSizes(sizes)[0] != ' '
  {
    assert IsDigit(PrintNumber(sizes.needs)[0]);
  }

  lemma TooBigKeyAndRest(stored: string)
    requires StartsWith(stored, TOO_BIG_PREFIX)
    ensures StripPrefix(stored, TOO_BIG_KEY) == Some(stored[7..]) && StartsWith(stored[7..], ":")
  {
    assert stored == TOO_BIG_PREFIX + stored[8..];
    assert stored[..7] == TOO_BIG_KEY;
    assert stored[7..] == ":" + stored[8..];
  }

  // ---------------------------------------------------------------- what an item waits for

  /** Why an item stays where it is though it was moved or removed in OneDrive. */
  datatype WaitsFor =
    | Cycle
    | Uploads(changes: U64)
    | OpenFor(path: string)
    | OtherWait(stored: string)

  function ParseWait(stored: string): WaitsFor {
    var split := SplitOnce(stored, ":");
    var key, detail := if split.Some? then split.value.before else stored, if split.Some? then split.value.after else "";
    if key == "cycle" && detail == "" then Cycle
    else if key == "uploads" && ParseNumber(detail).Some? then Uploads(ParseNumber(detail).value)
    else if key == "open-for-writing" then OpenFor(detail)
    else OtherWait(stored)
  }

  function PrintWait(wait: WaitsFor): string {
    match wait
    case Cycle => "cycle"
    case Uploads(changes) => "uploads:" + PrintNumber(changes)
    case OpenFor(path) => "open-for-writing:" + path
    case OtherWait(stored) => stored
  }

  lemma WaitSplits(key: string, detail: string)
    requires ':' !in key
    ensures SplitOnce(key + ":" + detail, ":") == Some(Split(key, detail))
    ensures SplitOnce(key, ":").None?
  {
    JoinSplits(key, ":", detail);
    NothingToSplit(key, ":");
  }

  /** What is named comes back from its print. */
  lemma ParseOfPrintWait(wait: WaitsFor)
    requires !wait.OtherWait?
    ensures ParseWait(PrintWait(wait)) == wait
  {
    hide SplitOnce, PrintNumber, ParseNumber;
    match wait
    case Cycle => WaitSplits("cycle", "");
    case Uploads(changes) =>
      WaitSplits("uploads", PrintNumber(changes));
      NumberRoundTrip(changes);
      assert PrintWait(wait) == "uploads" + ":" + PrintNumber(changes);
    case OpenFor(path) =>
      WaitSplits("open-for-writing", path);
      assert PrintWait(wait) == "open-for-writing" + ":" + path;
  }

  /** The strings a client may send that come back spelled otherwise. */
  predicate IsRespelled(stored: string) {
    || stored == "cycle:"
    || stored == "open-for-writing"
    || (StartsWith(stored, "uploads:") && ParseNumber(stored[8..]).Some? && !IsPlain(stored[8..]))
  }

  lemma {:induction false} NoColonBefore(s: string)
    requires SplitOnce(s, ":").Some?
    ensures ':' !in SplitOnce(s, ":").value.before
  {
    if !StartsWith(s, ":") {
      NoColonBefore(s[1..]);
      assert s[..1] == [s[0]];
    }
  }

  /** Of a key and what stands behind the colon. */
  predicate IsRespelledOf(key: string, detail: string) {
    (key == "cycle" && detail == "") || (key == "uploads" && ParseNumber(detail).Some? && !IsPlain(detail))
  }

  lemma RespelledOf(key: string, detail: string)
    requires ':' !in key
    ensures IsRespelled(key + ":" + detail) <==> IsRespelledOf(key, detail)
  {
    hide SplitOnce, ParseNumber, IsPlain;
    var stored := key + ":" + detail;
    WaitSplits(key, detail);
    WaitSplits("cycle", "");
    WaitSplits("open-for-writing", "");
    assert "cycle" + ":" + "" == "cycle:";
    if StartsWith(stored, "uploads:") {
      WaitSplits("uploads", stored[8..]);
      assert stored == "uploads" + ":" + stored[8..];
    }
    if key == "uploads" {
      assert stored == "uploads:" + detail && stored[..8] == "uploads:";
    }
  }

  lemma PrintsBackOf(key: string, detail: string)
    requires ':' !in key
    ensures PrintWait(ParseWait(key + ":" + detail)) == key + ":" + detail <==> !IsRespelledOf(key, detail)
  {
    hide SplitOnce, ParseNumber, IsPlain, PrintNumber;
    WaitSplits(key, detail);
    if key == "uploads" {
      assert key + ":" + detail == "uploads:" + detail;
      assert ("uploads:" + detail)[8..] == detail;
      if ParseNumber(detail).Some? {
        PlainIff(detail);
        assert ("uploads:" + PrintNumber(ParseNumber(detail).value))[8..] == PrintNumber(ParseNumber(detail).value);
      }
    } else if key == "open-for-writing" {
      assert key + ":" + detail == "open-for-writing:" + detail;
    }
  }

  /** A string prints back as it stood exactly when it is none of those. */
  lemma PrintOfParseWaitIff(stored: string)
    ensures PrintWait(ParseWait(stored)) == stored <==> !IsRespelled(stored)
  {
    if SplitOnce(stored, ":").Some? {
      var split := SplitOnce(stored, ":").value;
      SplitJoins(stored, ":");
      NoColonBefore(stored);
      RespelledOf(split.before, split.after);
      PrintsBackOf(split.before, split.after);
      hide *;
    } else {
      NoSplitNoColon(stored);
      EmptyIsNoNumber();
      hide SplitOnce, ParseNumber, PrintNumber, IsPlain;
      assert "cycle:"[5] == ':';
      assert |"open-for-writing:" + ""| == 17;
      if StartsWith(stored, "uploads:") {
        UploadsHaveColon(stored);
      }
    }
  }

  lemma UploadsHaveColon(stored: string)
    requires StartsWith(stored, "uploads:")
    ensures ':' in stored
  {
    assert stored[..8][7] == stored[7];
  }

  lemma EmptyIsNoNumber()
    ensures ParseNumber("").None?
  {
  }

  lemma {:induction false} NoSplitNoColon(s: string)
    requires SplitOnce(s, ":").None?
    ensures ':' !in s
  {
    if s != "" {
      NoSplitNoColon(s[1..]);
      assert s == [s[0]] + s[1..];
      assert s[..1] == [s[0]];
    }
  }
}
