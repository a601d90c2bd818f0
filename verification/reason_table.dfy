/**
  The table of the reasons, told of strings alone: what each spelling is, under what it is
  presented, and what stands behind its key.
*/
module ReasonTable {
  import opened Wrappers
  import opened ReasonText
  import opened Reasons

  /** How each reason without a detail stands in the database. */
  function Spelling(reason: Reason): string
    requires IsBare(reason)
  {
    match reason
    case OpenForWriting => "open-for-writing"
    case NameCharacters => "name-characters"
    case NameSpaces => "name-spaces"
    case NameReserved => "name-reserved"
    case NameNotUtf8 => "name-not-utf8"
    case TooLarge => "too-large"
    case Quota => "quota-exceeded"
    case Forbidden => "forbidden"
    case Refused(_) => "refused"
    case Locked => "locked"
    case NotFound => "not-found"
    case Changed => "changed-while-sending"
    case Parent => "parent-not-in-onedrive"
    case Hash => "hash-mismatch"
    case Paused => "paused"
    case SessionOpen => "upload-session-open"
    case NameHeld => "name-held-by-an-upload"
    case ChangedAgain => "changed in OneDrive again and again"
    case SessionEnded => "the upload session ended twice"
    case NotAllowed(_) => "not allowed now"
    case Blocked => "blocked"
    case NotReadOnDisk => "not-read-on-disk"
    case BeingChecked => "being-checked"
    case QuietTime => "quiet-time"
    case Network => "network"
    case LocalIo => "local-error"
    case Store => "index-error"
    case Failed => "upload-error"
    case WaitingForSpace => "waiting-for-space"
    case TooBig(_) => "too-big"
  }

  /** What stands there so is that reason, and nothing else is. */
  lemma SpellingsAre(stored: string, reason: Reason)
    requires IsBare(reason)
    ensures Parse(stored) == reason <==> stored == Spelling(reason)
  {
    SpelledIs(reason);
    BareIsPrinted(reason);
    hide Parse, Print, NamedKey, Spelling;
    ParseOfPrint(reason);
    PrintOfParse(stored);
  }

  lemma SpelledIs(reason: Reason)
    requires IsBare(reason)
    ensures NamedKey(reason) == Spelling(reason)
  {
  }

  lemma BareIsPrinted(reason: Reason)
    requires IsBare(reason)
    ensures !reason.Other? && Print(reason) == NamedKey(reason)
  {
  }

  /** What one thing the user does ends. */
  const ONE_ACTION: set<string> := {"quota-exceeded", "forbidden", "waiting-for-space", "too-big"}

  /** What is of the file itself. */
  const PER_FILE: set<string> := {
    "name-characters", "name-spaces", "name-reserved", "name-not-utf8", "too-large", "refused", "blocked", "not-read-on-disk"
  }

  /** What ends by itself. */
  const WAITING: set<string> := {
    "open-for-writing", "locked", "not-found", "changed-while-sending", "parent-not-in-onedrive", "hash-mismatch", "paused",
    "upload-session-open", "name-held-by-an-upload", "changed in OneDrive again and again", "the upload session ended twice",
    "not allowed now", "being-checked", "quiet-time", "network", "local-error", "index-error", "upload-error"
  }

  /** For every string: the group it is presented under, and none for one that is not in the table. */
  lemma GroupsAre(key: string)
    ensures KnownGroup(key) == if key in ONE_ACTION then Some(OneAction)
                               else if key in PER_FILE then Some(PerFile)
                               else if key in WAITING then Some(Waiting)
                               else None
  {
    hide FromKey, NamedKey, Spelling, GroupOf, ONE_ACTION, PER_FILE, WAITING;
    if FromKey(key).Some? {
      FoundByKey(key);
      SpelledIs(FromKey(key).value);
      GroupOfSpelled(FromKey(key).value);
    } else {
      forall reason: Reason | IsBare(reason)
        ensures Spelling(reason) != key
      {
        KeyIsFound(reason);
        SpelledIs(reason);
      }
      if key in ONE_ACTION {
        ActionIsSpelled(key);
      }
      if key in PER_FILE {
        FileIsSpelled(key);
      }
      if key in WAITING {
        WaitingIsSpelled(key);
      }
    }
  }

  lemma GroupOfSpelled(reason: Reason)
    requires IsBare(reason)
    ensures var key := Spelling(reason);
            Some(GroupOf(reason)) == if key in ONE_ACTION then Some(OneAction)
                                     else if key in PER_FILE then Some(PerFile)
                                     else if key in WAITING then Some(Waiting)
                                     else None
  {
  }

  lemma ActionIsSpelled(key: string)
    requires key in ONE_ACTION
    ensures exists reason: Reason :: IsBare(reason) && Spelling(reason) == key
  {
    var reason :=
      if key == "quota-exceeded" then Quota
      else if key == "forbidden" then Forbidden
      else if key == "waiting-for-space" then WaitingForSpace
      else TooBig(None);
    assert IsBare(reason) && Spelling(reason) == key;
  }

  lemma FileIsSpelled(key: string)
    requires key in PER_FILE
    ensures exists reason: Reason :: IsBare(reason) && Spelling(reason) == key
  {
    var reason :=
      if key == "name-characters" then NameCharacters
      else if key == "name-spaces" then NameSpaces
      else if key == "name-reserved" then NameReserved
      else if key == "name-not-utf8" then NameNotUtf8
      else if key == "too-large" then TooLarge
      else if key == "refused" then Refused(None)
      else if key == "blocked" then Blocked
      else NotReadOnDisk;
    assert IsBare(reason) && Spelling(reason) == key;
  }

  lemma WaitingIsSpelled(key: string)
    requires key in WAITING
    ensures exists reason: Reason :: IsBare(reason) && Spelling(reason) == key
  {
    var reason :=
      if key == "open-for-writing" then OpenForWriting
      else if key == "locked" then Locked
      else if key == "not-found" then NotFound
      else if key == "changed-while-sending" then Changed
      else if key == "parent-not-in-onedrive" then Parent
      else if key == "hash-mismatch" then Hash
      else if key == "paused" then Paused
      else if key == "upload-session-open" then SessionOpen
      else if key == "name-held-by-an-upload" then NameHeld
      else if key == "changed in OneDrive again and again" then ChangedAgain
      else if key == "the upload session ended twice" then SessionEnded
      else if key == "not allowed now" then NotAllowed(None)
      else if key == "being-checked" then BeingChecked
      else if key == "quiet-time" then QuietTime
      else if key == "network" then Network
      else if key == "local-error" then LocalIo
      else if key == "index-error" then Store
      else Failed;
    assert IsBare(reason) && Spelling(reason) == key;
  }
}
