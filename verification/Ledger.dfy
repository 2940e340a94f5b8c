/** The security-state ledger as a storage-key service sees it: one record per
    key, changed only by create-if-absent, compare-and-swap and conditional
    delete, each answered with a status. */
module Ledger {
  import opened Basics
  import opened StorageKey

  datatype Key =
    | GrantKey(res: Resource)
    | SetKey(res: Resource, epoch: U32)
    | TicketKey(res: Resource, ticket: Id)
    | ChainKey(res: Resource, attachment: Id)
    | AuditKey(res: Resource, atMs: U64, id: Id)
    | ReplayKey(antiReplay: Id)
    | DeviceKey(device: Id)

  /** `Blank` is an empty value, `Foreign` any bytes that are no record. */
  datatype Value =
    | Rec(rec: Record)
    | AuditEntry(audit: Audit)
    | Claim
    | Blank
    | Foreign(bytes: nat)

  type Etag = nat

  datatype Request =
    | Get(key: Key)
    | PutIfAbsent(key: Key, value: Value)
    | CompareAndSwap(key: Key, etag: Etag, value: Value)
    | Delete(key: Key, etag: Etag)

  datatype Status = StOk | StNotFound | StConflict | StRetained | StMalformed | StUnavailable

  /** `read_status`. */
  function ReadStatus(s: Status): Check<Refusal> {
    match s
    case StOk => Passed
    case StNotFound => Refused(UnknownResource)
    case StMalformed => Refused(Malformed)
    case _ => Refused(LedgerUnavailable)
  }

  /** `write_status`. */
  function WriteStatus(s: Status): Check<Refusal> {
    match s
    case StOk => Passed
    case StConflict => Refused(Conflict)
    case StRetained => Refused(RetainedByStore)
    case StNotFound => Refused(UnknownResource)
    case StMalformed => Refused(Malformed)
    case StUnavailable => Refused(LedgerUnavailable)
  }

  datatype ReplayClaim = Fresh | AlreadyClaimed | Unavailable

  /** `replay_claim_result`. */
  function ReplayClaimResult(s: Status): ReplayClaim {
    match s
    case StOk => Fresh
    case StConflict => AlreadyClaimed
    case _ => Unavailable
  }
}
