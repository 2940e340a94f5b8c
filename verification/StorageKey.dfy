/** The storage-key profile: records, the epochs a grant admits, and the pure
    decisions a release, a renewal and a recovery set rest on.

    Identifiers, names and keys are opaque numbers with 0 for the all-zero or
    empty one. A digest is represented by what it is the digest of, and a key
    thumbprint by the key, which is what collision freedom means here. */
module StorageKey {
  import opened Basics

  type Id = nat

  datatype Kind =
    | NoKind | Grant | Attachment | Recovery | RecoverySet
    | Creation | RecoveryTicket | Renewal | Erasure

  datatype Purpose = NoPurpose | ForAttachment | ForRecovery
  datatype CustodyClass = PossessionBound | HardwareBound
  datatype Aead = ChaCha20Poly1305 | Aes256Gcm | OtherAead

  const PROCESS_HW := 1
  const DEVICE_HW := 2
  const NOT_ATTESTED := 0xFF
  const MAX_RETAINED_EPOCHS := 8
  const MAX_LIFETIME_SECS := 7 * 24 * 3600
  const MAX_REQUEST_WINDOW_MS := 120_000
  const ENVELOPE_TTL_MS := 60_000
  const CHALLENGE_TTL_MS := 60_000

  datatype Refusal =
    | Malformed | UnknownResource | GrantRevoked | DeviceNotGranted | DeviceUnknown
    | BadProof | ChallengeUnknown | RequestExpired | Replayed | WrongEpoch
    | WrongRecipient | LifetimeExceeded | AttestationRequired | AttestationInsufficient
    | AttestationInvalid | CustodianRefused | EnvelopeInvalid | LedgerUnavailable
    | Conflict | NoIssuerKey | Busy | NoRecoveryTicket | FenceInvalid | SetIncomplete
    | RotationInProgress | BadSignature | WrongTenant | UnknownAttachment | FenceChanged
    | AttachmentExpired | Erased | EpochPinned | RetainedEpochsFull | RetainedByStore

  datatype Resource = Resource(kind: nat, id: Id) {
    /** Volume, partition or snapshot. */
    predicate Valid() { 1 <= kind <= 3 }
  }

  /** What the policy digest of one key epoch is computed over. */
  datatype PolicyDigest =
    | NoPolicy
    | PolicyOf(issuer: Id, tenant: Id, res: Resource, grantId: Id, setId: Id, epoch: U32)

  datatype Binding = Binding(
    kind: Kind, res: Resource, purpose: Purpose, custody: CustodyClass,
    minTier: nat, provenTier: nat, minAssurance: nat, revoked: bool, consumed: bool,
    aead: Aead, epoch: U32, generation: U32, lifetimeSecs: U32, retained: nat,
    fence: U64, issuedMs: U64, expiryMs: U64, revokedMs: U64,
    grantId: Id, setId: Id, antiReplay: Id, policy: PolicyDigest, recipient: Id, nonce: Id)

  const NO_BINDING := Binding(
    NoKind, Resource(0, 0), NoPurpose, PossessionBound,
    0, NOT_ATTESTED, 0, false, false,
    ChaCha20Poly1305, 0, 0, 0, 0,
    0, 0, 0, 0,
    0, 0, 0, NoPolicy, 0, 0)

  datatype Names = Names(issuer: Id, tenant: Id, device: Id)

  /** A share envelope: its public header, and the sealed share as an opaque
      number. `Unreadable` is any byte string of another shape. */
  datatype Envelope =
    | Unreadable
    | Envelope(aead: Aead, purpose: Purpose, index: nat, setId: Id, resource: Id,
               epoch: U32, recipient: Id, fence: U64, expiryMs: U64,
               antiReplay: Id, policy: PolicyDigest, share: nat)

  datatype Item =
    | EpochItem(epochs: seq<U32>)
    | KeyItem(key: Id)
    | EnvelopeItem(envelope: Envelope)
    | IdItem(id: Id)
    | DigestItem(digest: Digest)

  datatype Digest = DigestOf(rec: Record) | NoDigest

  datatype Record = Record(b: Binding, names: Names, items: seq<Item>)

  // ── Retained epochs ────────────────────────────────────────────────────

  /** Strictly ascending, nonzero, each below the current epoch. */
  predicate Ascending(epochs: seq<U32>, current: U32) {
    && (forall i :: 0 <= i < |epochs| ==> 0 < epochs[i] < current)
    && (forall i, j :: 0 <= i < j < |epochs| ==> epochs[i] < epochs[j])
  }

  /** `Retained::of`: the epochs a grant keeps admitted besides its own. */
  function RetainedOf(grant: Record): Result<seq<U32>, Refusal> {
    if grant.b.kind != Grant then Err(Malformed)
    else if grant.b.retained == 0 then
      if grant.items == [] then Ok([]) else Err(Malformed)
    else if
      && |grant.items| == 1
      && grant.items[0].EpochItem?
      && grant.b.retained <= MAX_RETAINED_EPOCHS
      && |grant.items[0].epochs| == grant.b.retained
      && Ascending(grant.items[0].epochs, grant.b.epoch)
    then Ok(grant.items[0].epochs)
    else Err(Malformed)
  }

  /** `Retained::push`. */
  function RetainedPush(epochs: seq<U32>, epoch: U32): Result<seq<U32>, Refusal> {
    if |epochs| >= MAX_RETAINED_EPOCHS then Err(RetainedEpochsFull)
    else if epoch == 0 || (epochs != [] && epochs[|epochs| - 1] >= epoch) then Err(WrongEpoch)
    else Ok(epochs + [epoch])
  }

  /** The position of the first occurrence of `epoch`, or the length. */
  function PositionOf(epochs: seq<U32>, epoch: U32): (i: nat)
    ensures i <= |epochs|
    ensures i < |epochs| ==> epochs[i] == epoch
    ensures epoch !in epochs[..i]
    ensures i == |epochs| ==> epoch !in epochs
  {
    if epochs == [] then 0
    else if epochs[0] == epoch then 0
    else
      var i := 1 + PositionOf(epochs[1..], epoch);
      assert epochs == [epochs[0]] + epochs[1..];
      i
  }

  /** `Retained::remove`: the list without the first `epoch`. */
  function RetainedRemove(epochs: seq<U32>, epoch: U32): seq<U32> {
    var i := PositionOf(epochs, epoch);
    if i < |epochs| then epochs[..i] + epochs[i + 1..] else epochs
  }

  /** Whether a grant admits `epoch`: its current one, or one it retains. */
  predicate Admits(grant: Record, epoch: U32) {
    && epoch != 0
    && grant.b.kind == Grant
    && (epoch == grant.b.epoch
        || (RetainedOf(grant).Ok? && epoch in RetainedOf(grant).value))
  }

  // ── What a device presents ─────────────────────────────────────────────

  /** `ATTEST_KEY` evidence, with the injected verifier's answer on it. */
  datatype Evidence =
    | NoEvidence
    | ShortEvidence
    | Evidence(magicOk: bool, challenge: Id, signatureOk: bool, thumbprint: Id,
               suiteOk: bool, usageOk: bool, persisted: bool, pkcs11: bool, tier: nat)

  /** An attach, recover or renew request. `recipient` is the public key of a
      well-formed announcement, `proofOk` the injected verifier's answer on
      the proof under the presented device key. */
  datatype AttachRequest = AttachRequest(
    kind: Kind, res: Resource, epoch: U32, fence: U64, lifetimeSecs: U32, expiryMs: U64,
    antiReplay: Id, challenge: Id, ticket: Id, recipient: Option<Id>, device: Id,
    proofOk: bool, evidence: Evidence)

  datatype DeviceFacts = DeviceFacts(active: bool, inTenant: bool, keyBound: bool, assurance: nat)

  datatype Custody = Custody(custody: CustodyClass, provenTier: nat)

  /** `admit_custody`. */
  function AdmitCustody(g: Binding, req: AttachRequest, thumbprint: Id): Result<Custody, Refusal> {
    match req.evidence
    case NoEvidence =>
      if g.custody == HardwareBound then Err(AttestationRequired)
      else Ok(Custody(PossessionBound, NOT_ATTESTED))
    case ShortEvidence => Err(AttestationInvalid)
    case Evidence(magicOk, challenge, signatureOk, thumb, suiteOk, usageOk, persisted, pkcs11, tier) =>
      if !magicOk || challenge != req.challenge || !signatureOk then Err(AttestationInvalid)
      else if thumb != thumbprint then Err(WrongRecipient)
      else if !suiteOk || !usageOk || persisted then Err(AttestationInsufficient)
      else if pkcs11 && tier >= PROCESS_HW && tier >= g.minTier then Ok(Custody(HardwareBound, tier))
      else if g.custody == HardwareBound then Err(AttestationInsufficient)
      else Ok(Custody(PossessionBound, tier))
  }

  // ── The release decision ───────────────────────────────────────────────

  /** The directory checks a release and a renewal share. */
  function CheckDevice(g: Binding, device: DeviceFacts): Check<Refusal> {
    if !device.active then Refused(DeviceUnknown)
    else if !device.inTenant then Refused(WrongTenant)
    else if !device.keyBound then Refused(BadProof)
    else if device.assurance < g.minAssurance then Refused(DeviceNotGranted)
    else Passed
  }

  /** Who may receive: the granted device, or the holder of an unused ticket. */
  function CheckEntitled(issuer: Id, grant: Record, ticket: Option<Record>, req: AttachRequest, nowMs: U64)
    : Check<Refusal>
  {
    match req.kind
    case Attachment =>
      if grant.b.revoked then Refused(GrantRevoked)
      else if grant.names.device == 0 || grant.names.device != req.device then Refused(DeviceNotGranted)
      else if req.ticket != 0 then Refused(Malformed)
      else Passed
    case Recovery =>
      if ticket.None? then Refused(NoRecoveryTicket)
      else
        var t := ticket.value;
        if t.b.kind != RecoveryTicket || t.b.res != req.res || t.b.grantId != req.ticket
           || t.names.device != req.device || t.names.issuer != issuer then Refused(NoRecoveryTicket)
        else if t.b.consumed || (t.b.expiryMs != 0 && nowMs >= t.b.expiryMs) then Refused(NoRecoveryTicket)
        else if t.b.epoch != req.epoch then Refused(WrongEpoch)
        else Passed
    case _ => Refused(Malformed)
  }

  /** `decide_release`: the authorisation sent to custodians. */
  function DecideRelease(issuer: Id, grant: Record, set_: Record, ticket: Option<Record>,
                         device: DeviceFacts, req: AttachRequest, nowMs: U64): Result<Binding, Refusal>
  {
    var g := grant.b;
    var s := set_.b;
    :- Need(g.kind == Grant && g.res == req.res && grant.names.issuer == issuer, UnknownResource);
    :- Need(nowMs < req.expiryMs && req.expiryMs - nowMs <= MAX_REQUEST_WINDOW_MS, RequestExpired);
    :- Need(req.fence != 0, FenceInvalid);
    :- CheckDevice(g, device);
    :- CheckEntitled(issuer, grant, ticket, req, nowMs);
    :- Need(Admits(grant, req.epoch), WrongEpoch);
    :- Need(s.kind == RecoverySet, SetIncomplete);
    :- Need(s.res == g.res && s.epoch == req.epoch, WrongEpoch);
    :- Need(0 < req.lifetimeSecs <= g.lifetimeSecs, LifetimeExceeded);
    :- Need(req.recipient.Some?, Malformed);
    :- Need(req.proofOk, BadProof);
    var held :- AdmitCustody(g, req, req.recipient.value);
    Ok(NO_BINDING.(
       kind := req.kind, res := g.res, purpose := ForAttachment,
       custody := held.custody, minTier := g.minTier, provenTier := held.provenTier,
       minAssurance := g.minAssurance, aead := s.aead, epoch := req.epoch,
       generation := g.generation, lifetimeSecs := req.lifetimeSecs, fence := req.fence,
       issuedMs := nowMs, expiryMs := SatAdd(nowMs, ENVELOPE_TTL_MS),
       grantId := g.grantId, setId := s.setId, antiReplay := req.antiReplay,
       policy := s.policy, recipient := req.recipient.value, nonce := req.challenge))
  }

  // ── The renewal decision ───────────────────────────────────────────────

  /** `attachment_expiry`. */
  function AttachmentExpiry(b: Binding): U64 {
    match b.kind
    case Attachment => SatAdd(b.issuedMs, b.lifetimeSecs * 1000)
    case Renewal => b.expiryMs
    case _ => 0
  }

  /** `attachment_id`: the attachment a record is a link of. */
  function AttachmentId(rec: Record): Option<Id> {
    if |rec.items| != 2 then None
    else if rec.b.kind == Attachment then Some(rec.b.antiReplay)
    else if rec.b.kind == Renewal && rec.items[0].IdItem? && rec.items[1].DigestItem? then Some(rec.items[0].id)
    else None
  }

  /** Where a renewal chain stands in the ledger. */
  datatype Chain = Unrenewed | Head(digest: Digest)

  datatype RenewalDecision = RenewalDecision(b: Binding, attachmentId: Id, previous: Digest)

  /** `decide_renewal`. `signed` answers the issuer-signature check; a record
      that does not parse is `None`. */
  function DecideRenewal(issuer: Id, signed: set<Record>, grant: Record, attachment: Option<Record>,
                         chain: Chain, device: DeviceFacts, req: AttachRequest, nowMs: U64)
    : Result<RenewalDecision, Refusal>
  {
    var renewing := Need(req.kind == Renewal, Malformed);
    :- renewing;
    :- Need(attachment.Some?, UnknownAttachment);
    var att := attachment.value;
    var a := att.b;
    var g := grant.b;
    :- Need(att in signed, BadSignature);
    var id := AttachmentId(att);
    :- Need(id.Some? && att.names.issuer == issuer && a.res == req.res
            && a.purpose == ForAttachment && id.value == req.ticket, UnknownAttachment);
    :- Need(g.kind == Grant && g.res == req.res && grant.names.issuer == issuer, UnknownResource);
    :- Need(g.grantId == a.grantId && grant.names.tenant == att.names.tenant, UnknownAttachment);
    :- Need(!g.revoked, GrantRevoked);
    :- Need(nowMs < AttachmentExpiry(a), AttachmentExpired);
    :- Need(nowMs < req.expiryMs && req.expiryMs - nowMs <= MAX_REQUEST_WINDOW_MS, RequestExpired);
    :- CheckDevice(g, device);
    :- Need(grant.names.device != 0 && grant.names.device == req.device
            && att.names.device == req.device, DeviceNotGranted);
    :- Need(req.recipient.Some?, Malformed);
    :- Need(req.recipient.value == a.recipient, WrongRecipient);
    :- Need(req.fence != 0, FenceInvalid);
    :- Need(req.fence == a.fence, FenceChanged);
    :- Need(req.epoch == a.epoch && Admits(grant, req.epoch), WrongEpoch);
    :- Need(0 < req.lifetimeSecs <= g.lifetimeSecs && req.lifetimeSecs <= MAX_LIFETIME_SECS, LifetimeExceeded);
    :- Need(req.proofOk, BadProof);
    var held :- AdmitCustody(g, req, req.recipient.value);
    var previous := DigestOf(att);
    :- Need(if chain.Unrenewed? then a.kind == Attachment else chain.digest == previous, Conflict);
    Ok(RenewalDecision(
       a.(kind := Renewal, custody := held.custody, provenTier := held.provenTier,
          minTier := g.minTier, minAssurance := g.minAssurance, revoked := false, consumed := false,
          generation := g.generation, lifetimeSecs := req.lifetimeSecs, retained := 0,
          issuedMs := nowMs, expiryMs := SatAdd(nowMs, req.lifetimeSecs * 1000), revokedMs := 0,
          antiReplay := req.antiReplay, nonce := req.challenge),
       id.value, previous))
  }

  // ── Envelopes ──────────────────────────────────────────────────────────

  /** `read_envelope`. */
  predicate Readable(e: Envelope) {
    e.Envelope? && e.aead != OtherAead && 1 <= e.index <= 3 && e.purpose != NoPurpose
  }

  /** `check_released`: the share index of an envelope released under `auth`. */
  function CheckReleased(e: Envelope, auth: Binding): Result<nat, Refusal> {
    if !Readable(e) then Err(EnvelopeInvalid)
    else if e.purpose != ForAttachment || e.aead != auth.aead || e.setId != auth.setId
            || e.resource != auth.res.id || e.epoch != auth.epoch || e.fence != auth.fence
            || e.expiryMs != auth.expiryMs || e.policy != auth.policy then Err(EnvelopeInvalid)
    else if e.recipient != auth.recipient then Err(WrongRecipient)
    else Ok(e.index)
  }

  /** One envelope of `check_custody_set`. */
  function CheckCustodyEnvelope(creation: Record, envs: seq<Envelope>, i: nat): Check<Refusal>
    requires |envs| == 3 && i < 3 && |creation.items| == 3
  {
    var c := creation.b;
    var e := envs[i];
    if !Readable(e) then Refused(EnvelopeInvalid)
    else if e.purpose != ForRecovery || e.index != i + 1 || e.aead != c.aead || e.setId != c.setId
            || e.resource != c.res.id || e.epoch != c.epoch || e.fence != 0 || e.expiryMs != 0
            || e.policy != c.policy then Refused(EnvelopeInvalid)
    else if creation.items[i] != KeyItem(e.recipient) then Refused(WrongRecipient)
    else Passed
  }

  /** `check_custody_set`. */
  function CheckCustodySet(creation: Record, envs: seq<Envelope>): Check<Refusal>
    requires |envs| == 3
  {
    if creation.b.kind != Creation || |creation.items| != 3 then Refused(Malformed)
    else
      var first := CheckCustodyEnvelope(creation, envs, 0);
      var second := CheckCustodyEnvelope(creation, envs, 1);
      if first.Refused? then first else if second.Refused? then second
      else CheckCustodyEnvelope(creation, envs, 2)
  }

  /** `write_bundle`: two distinct shares, the lower index first. */
  function WriteBundle(a: Envelope, b: Envelope, auth: Binding): Result<seq<Envelope>, Refusal> {
    var ia :- CheckReleased(a, auth);
    var ib :- CheckReleased(b, auth);
    :- Need(ia != ib, EnvelopeInvalid);
    Ok(if ia < ib then [a, b] else [b, a])
  }

  // ── Audit ──────────────────────────────────────────────────────────────

  datatype OpCode =
    | ChallengeOp | CreateOp | RecordSetOp | GrantOp | AttachOp | RevokeOp | ReplaceDeviceOp
    | RotateGrantOp | RotateKeyOp | RetireEpochOp | RecoveryAuthoriseOp | RecoverOp
    | RenewOp | EraseOp | UnknownOp

  /** One audit entry; the device and actor names are not part of the model. */
  datatype Audit = Audit(
    op: OpCode, refusal: Option<Refusal>, res: Resource, atMs: U64, epoch: U32, generation: U32,
    antiReplay: Id, record: Digest, recipient: Id, fence: U64, custody: CustodyClass, provenTier: nat)

  function NewAudit(op: OpCode, res: Resource, atMs: U64): Audit {
    Audit(op, None, res, atMs, 0, 0, 0, NoDigest, 0, 0, PossessionBound, NOT_ATTESTED)
  }

  /** `Audit::record_binding`. */
  function RecordBinding(a: Audit, b: Binding): Audit {
    a.(epoch := b.epoch, generation := b.generation, antiReplay := b.antiReplay,
       recipient := b.recipient, fence := b.fence, custody := b.custody, provenTier := b.provenTier)
  }
}
