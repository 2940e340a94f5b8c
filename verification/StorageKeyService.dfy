/** The storage-key service: what one operation does at each message, and what
    the service does with a request, a ledger reply, a custodian's answer and
    the clock.

    Every stage is a function from the operation and what arrived to a `Turn`:
    the operation afterwards and what was said. `Done` and `Fail` both end in
    the audit write, as every path of the service does. */
module StorageKeyService {
  import opened Basics
  import opened StorageKey
  import opened Ledger

  const MAX_OPS := 4
  const MAX_CHALLENGES := 16
  const STAGE_TIMEOUT_MS := 10_000
  const MAX_TICKET_SECS := 3600

  datatype Stage =
    | GetGrant | GetDevice | GetTicket | GetSet | ClaimReplay | ConsumeTicket | Custodians
    | PutGrant | PutSet | CasSet | CasGrant | PutTicket | GetOldSet | DeleteSet | WriteAudit
    | GetChain | PutChain | GetCurrentSet | EraseGetSet | EraseDeleteSet | EraseCustodians | Starting

  predicate AwaitsCustodians(s: Stage) { s == Custodians || s == EraseCustodians }

  // ── Requests ───────────────────────────────────────────────────────────

  datatype PolicyFields = PolicyFields(custody: CustodyClass, minTier: nat, minAssurance: nat, lifetimeSecs: U32)

  /** What `policy_fields` accepts. */
  predicate PolicyOk(p: PolicyFields) {
    && p.minTier <= DEVICE_HW
    && (p.custody == HardwareBound ==> PROCESS_HW <= p.minTier)
    && 0 < p.lifetimeSecs <= MAX_LIFETIME_SECS
  }

  /** What `custodian_keys` accepts: three different keys. */
  predicate KeysOk(keys: seq<Id>) {
    |keys| == 3 && keys[0] != keys[1] && keys[1] != keys[2] && keys[0] != keys[2]
  }

  /** The body of a request after its head. `Unparsed` is any body the
      operation's reader refuses. */
  datatype Fields =
    | CreateFields(tenant: Id, policy: PolicyFields, aead: Aead, keys: seq<Id>)
    | RecordSetFields(setEpoch: U32, envs: Option<seq<Envelope>>)
    | PolicyChange(device: Id, policy: PolicyFields)
    | Replacement(old_: Id, new_: Id)
    | ActorOnly
    | DeviceOnly(device: Id)
    | EpochOnly(retired: U32)
    | NewKeys(keys: seq<Id>)
    | Authorise(ticketEpoch: U32, recovering: Id, ttlSecs: U32)
    | EraseScan(scanned: U32, pins: U32)
    | Proven(req: AttachRequest, attachment: Option<Record>)
    | Unparsed

  datatype Payload = Payload(code: OpCode, res: Resource, fields: Fields) {
    /** `head`: the resource every body begins with. */
    function Head(): Resource {
      if fields.Proven? then fields.req.res else res
    }
  }

  // ── State ──────────────────────────────────────────────────────────────

  datatype Held = NotHeld | Held(rec: Record, etag: Etag)
  datatype ChainHead = NoHead | ChainHead(digest: Digest, etag: Etag)

  datatype Op = Op(
    code: OpCode, stage: Stage, caller: nat, corr: nat, deadlineMs: U64,
    res: Resource, fields: Fields,
    grant: Held, set_: Held, ticket: Held, chain: ChainHead, facts: DeviceFacts,
    out: Option<Record>, aux: Option<Record>, auth: Binding,
    envs: seq<Envelope>, asked: set<nat>, answered: set<nat>, cursor: U32,
    audit: Audit, auditId: Id, refusal: Option<Refusal>)
  {
    /** Decided on a device's proof: an attach, a recovery or a renewal. */
    predicate IsProven() { code == AttachOp || code == RecoverOp || code == RenewOp }

    predicate IsRelease() { code == AttachOp || code == RecoverOp }

    /** `Op::attach`: the request under the kind the operation asks for. */
    function Attach(): Result<AttachRequest, Refusal> {
      if fields.Proven? && (code == RenewOp ==> fields.attachment.Some?) then
        Ok(fields.req.(kind := if code == RenewOp then Renewal else if code == RecoverOp then Recovery else Attachment))
      else Err(Malformed)
    }
  }

  datatype Challenge = Challenge(nonce: Id, res: Resource, device: Id, expiresMs: U64)

  const FREE_CHALLENGE := Challenge(0, Resource(0, 0), 0, 0)

  /** What one call of the service gets from wherever it runs: the clock at
      entry and when the decision is audited, the randomness it drew, whether
      each send and the signer succeed, what verifies under the issuer key,
      and what the directory reader says of the record read. */
  datatype Host = Host(
    nowMs: U64, laterMs: U64, drawn: Option<(Id, Id)>, auditId: Option<Id>,
    ledgerUp: bool, auditUp: bool, custodianUp: set<nat>,
    issuer: Id, keyLoaded: bool, signOk: bool, signed: set<Record>, facts: DeviceFacts)

  // ── What is said ───────────────────────────────────────────────────────

  datatype Order =
    | RewrapOrder(custodian: nat, record: Record, recipient: Id, envelope: Envelope)
    | EraseOrder(custodian: nat, record: Record)

  datatype Reply = Reply(
    caller: nat, code: OpCode, refusal: Option<Refusal>, audited: bool,
    record: Option<Record>, bundle: seq<Envelope>, extra: Option<(Id, U64)>)

  datatype Verdict = Next(op: Op) | Done(op: Op) | Fail(op: Op, refusal: Refusal)

  datatype Turn = Turn(verdict: Verdict, sends: seq<Request>, orders: seq<Order>, signs: set<Record>)

  function Refuse(op: Op, refusal: Refusal): Turn { Turn(Fail(op, refusal), [], [], {}) }
  function Allow(op: Op): Turn { Turn(Done(op), [], [], {}) }

  function Written(o: Option<Record>): Value {
    match o case Some(r) => Rec(r) case None => Blank
  }

  function AttachTicket(op: Op): Id { if op.fields.Proven? then op.fields.req.ticket else 0 }
  function HeldEtag(h: Held): Etag { match h case Held(_, e) => e case NotHeld => 0 }
  function HeldEpoch(h: Held): U32 { match h case Held(r, _) => r.b.epoch case NotHeld => 0 }

  /** The ledger request of the stage an operation is in. */
  function StageRequest(op: Op): Request {
    match op.stage
    case Starting | Custodians | EraseCustodians | GetGrant => Get(GrantKey(op.res))
    case GetDevice => Get(DeviceKey(if op.fields.Proven? then op.fields.req.device else 0))
    case GetTicket => Get(TicketKey(op.res, AttachTicket(op)))
    case GetSet => Get(SetKey(op.res, op.audit.epoch))
    case GetChain => Get(ChainKey(op.res, AttachTicket(op)))
    case GetCurrentSet => Get(SetKey(op.res, HeldEpoch(op.grant)))
    case GetOldSet => Get(SetKey(op.res, op.audit.epoch))
    case EraseGetSet => Get(SetKey(op.res, op.cursor))
    case ClaimReplay => PutIfAbsent(ReplayKey(op.auth.antiReplay), Claim)
    case ConsumeTicket => CompareAndSwap(TicketKey(op.res, AttachTicket(op)), HeldEtag(op.ticket), Written(op.aux))
    case PutGrant => PutIfAbsent(GrantKey(op.res), Written(op.aux))
    case PutSet => PutIfAbsent(SetKey(op.res, op.audit.epoch), Written(op.out))
    case CasSet => CompareAndSwap(SetKey(op.res, op.audit.epoch), HeldEtag(op.set_), Written(op.out))
    case CasGrant =>
      CompareAndSwap(GrantKey(op.res), HeldEtag(op.grant), Written(if op.code == RotateKeyOp then op.aux else op.out))
    case PutTicket =>
      PutIfAbsent(TicketKey(op.res, match op.out case Some(t) => t.b.grantId case None => 0), Written(op.out))
    case DeleteSet => Delete(SetKey(op.res, op.audit.epoch), HeldEtag(op.set_))
    case EraseDeleteSet => Delete(SetKey(op.res, op.cursor), HeldEtag(op.set_))
    case PutChain => (
      match op.chain
      case ChainHead(_, etag) => CompareAndSwap(ChainKey(op.res, AttachTicket(op)), etag, Written(op.out))
      case NoHead => PutIfAbsent(ChainKey(op.res, AttachTicket(op)), Written(op.out)))
    case WriteAudit => PutIfAbsent(AuditKey(op.audit.res, op.audit.atMs, op.auditId), AuditEntry(op.audit))
  }

  /** `commit_send`: send the next stage's request, or refuse. */
  function Send(h: Host, op: Op, next: Stage): Turn {
    if h.ledgerUp then
      var o := op.(stage := next, deadlineMs := SatAdd(h.nowMs, STAGE_TIMEOUT_MS));
      Turn(Next(o), [StageRequest(o)], [], {})
    else Refuse(op, LedgerUnavailable)
  }

  /** A record signed on the way to the next stage. */
  function SignThen(h: Host, signs: set<Record>, then_: Turn, op: Op): Turn {
    if h.signOk then then_.(signs := signs) else Refuse(op, NoIssuerKey)
  }

  /** `verify_kind`. */
  function VerifyKind(signed: set<Record>, value: Value): Result<Kind, Refusal> {
    match value
    case Rec(r) => if r in signed then Ok(r.b.kind) else Err(BadSignature)
    case _ => Err(Malformed)
  }

  /** `sign_grant`: the grant with its retained epochs as count and item. */
  function GrantRecord(g: Binding, names: Names, retained: seq<U32>): Record {
    Record(g.(retained := |retained|), names, if retained == [] then [] else [EpochItem(retained)])
  }

  // ── Challenges ─────────────────────────────────────────────────────────

  /** The slot `issue_challenge` takes: the first free one, else the one
      closest to expiry. */
  function ChallengeSlot(cs: seq<Challenge>, i: nat, best: nat): nat
    requires i <= |cs|
    decreases |cs| - i
  {
    if i == |cs| then best
    else if cs[i].expiresMs == 0 then i
    else if i == 0 || (best < |cs| && cs[i].expiresMs < cs[best].expiresMs) then ChallengeSlot(cs, i + 1, i)
    else ChallengeSlot(cs, i + 1, best)
  }

  /** The first live challenge with this nonce, or the table length. */
  function ChallengeAt(cs: seq<Challenge>, nonce: Id): (i: nat)
    ensures i <= |cs|
    ensures i < |cs| ==> cs[i].expiresMs != 0 && cs[i].nonce == nonce
    ensures forall j :: 0 <= j < i ==> !(cs[j].expiresMs != 0 && cs[j].nonce == nonce)
  {
    if cs == [] || (cs[0].expiresMs != 0 && cs[0].nonce == nonce) then 0
    else 1 + ChallengeAt(cs[1..], nonce)
  }

  /** `spend_challenge`: the table afterwards, and whether the request may go on. */
  function SpendChallenge(cs: seq<Challenge>, req: AttachRequest, nowMs: U64): (seq<Challenge>, Check<Refusal>) {
    var i := ChallengeAt(cs, req.challenge);
    if i == |cs| then (cs, Refused(ChallengeUnknown))
    else
      var held := cs[i];
      (cs[i := FREE_CHALLENGE],
       if nowMs >= held.expiresMs || held.res != req.res || held.device != req.device
       then Refused(ChallengeUnknown) else Passed)
  }

  // ── Starting ───────────────────────────────────────────────────────────

  /** `start_create`. */
  function StartCreate(h: Host, op: Op): Turn {
    if h.drawn.None? then Refuse(op, Busy)
    else if !op.fields.CreateFields? || !op.res.Valid() || op.fields.tenant == 0 || !PolicyOk(op.fields.policy)
            || !KeysOk(op.fields.keys) || op.fields.aead == OtherAead then Refuse(op, Malformed)
    else
      var f := op.fields;
      var g := NO_BINDING.(
        kind := Grant, res := op.res, purpose := ForAttachment, custody := f.policy.custody,
        minTier := f.policy.minTier, minAssurance := f.policy.minAssurance,
        lifetimeSecs := f.policy.lifetimeSecs, aead := f.aead, epoch := 1, generation := 1,
        issuedMs := h.nowMs, grantId := h.drawn.value.0, setId := h.drawn.value.1,
        policy := PolicyOf(h.issuer, f.tenant, op.res, h.drawn.value.0, h.drawn.value.1, 1));
      var names := Names(h.issuer, f.tenant, 0);
      var grant := Record(g, names, []);
      var creation := Record(g.(kind := Creation, purpose := ForRecovery), names,
                             [KeyItem(f.keys[0]), KeyItem(f.keys[1]), KeyItem(f.keys[2])]);
      var o := op.(out := Some(creation), aux := Some(grant), audit := op.audit.(epoch := 1, generation := 1));
      SignThen(h, {grant, creation}, Send(h, o, PutGrant), op)
  }

  /** `start`, with the challenge table it may spend from. */
  function Start(h: Host, cs: seq<Challenge>, op: Op): (seq<Challenge>, Turn) {
    match op.code
    case CreateOp => (cs, StartCreate(h, op))
    case RecordSetOp =>
      if !op.res.Valid() || !op.fields.RecordSetFields? then (cs, Refuse(op, Malformed))
      else (cs, Send(h, op.(audit := op.audit.(epoch := op.fields.setEpoch)), GetGrant))
    case GrantOp | RotateGrantOp | ReplaceDeviceOp | RevokeOp | RotateKeyOp | RetireEpochOp
       | RecoveryAuthoriseOp | EraseOp =>
      if !op.res.Valid() then (cs, Refuse(op, Malformed)) else (cs, Send(h, op, GetGrant))
    case AttachOp | RecoverOp | RenewOp => (
      match op.Attach()
      case Err(r) => (cs, Refuse(op, r))
      case Ok(req) =>
        if !op.res.Valid() || req.device == 0 then (cs, Refuse(op, Malformed))
        else
          var (cs', spent) := SpendChallenge(cs, req, h.nowMs);
          var o := op.(audit := op.audit.(antiReplay := req.antiReplay, fence := req.fence, epoch := req.epoch));
          if spent.Refused? then (cs', Refuse(o, spent.error)) else (cs', Send(h, o, GetGrant)))
    case ChallengeOp | UnknownOp => (cs, Refuse(op, Malformed))
  }

  // ── After the grant is read ────────────────────────────────────────────

  /** A grant change: one new generation, re-signed whole. */
  function ChangeGrant(h: Host, op: Op, g: Binding, tenant: Id, device: Id, retained: seq<U32>): Turn {
    var next := g.(generation := WrapInc(g.generation), issuedMs := h.nowMs);
    var grant := GrantRecord(next, Names(h.issuer, tenant, device), retained);
    var o := op.(out := Some(grant), audit := op.audit.(generation := next.generation));
    SignThen(h, {grant}, Send(h, o, CasGrant), op)
  }

  /** The `GRANT` and `ROTATE_GRANT` branches. */
  function SetPolicy(h: Host, op: Op, held: Record, retained: seq<U32>): Turn {
    if !op.fields.PolicyChange? || op.fields.device == 0 || !PolicyOk(op.fields.policy) then Refuse(op, Malformed)
    else
      var named := op.fields.device;
      var p := op.fields.policy;
      var g := held.b.(custody := p.custody, minTier := p.minTier, minAssurance := p.minAssurance,
                       lifetimeSecs := p.lifetimeSecs);
      if op.code == GrantOp then
        if held.names.device != 0 && !held.b.revoked then Refuse(op, Conflict)
        else ChangeGrant(h, op, g.(revoked := false, revokedMs := 0), held.names.tenant, named, retained)
      else if held.b.revoked then Refuse(op, GrantRevoked)
      else if held.names.device != named then Refuse(op, DeviceNotGranted)
      else ChangeGrant(h, op, g, held.names.tenant, named, retained)
  }

  /** The `REPLACE_DEVICE` branch. */
  function ReplaceDevice(h: Host, op: Op, held: Record, retained: seq<U32>): Turn {
    if !op.fields.Replacement? || op.fields.old_ == 0 || op.fields.new_ == 0 || op.fields.old_ == op.fields.new_
    then Refuse(op, Malformed)
    else if held.b.revoked then Refuse(op, GrantRevoked)
    else if held.names.device != op.fields.old_ then Refuse(op, Conflict)
    else ChangeGrant(h, op, held.b, held.names.tenant, op.fields.new_, retained)
  }

  /** The `RECOVERY_AUTHORISE` branch: a fresh one-time ticket. */
  function AuthoriseRecovery(h: Host, op: Op, held: Record): Turn {
    if !op.fields.Authorise? || op.fields.recovering == 0 || op.fields.ttlSecs == 0
       || op.fields.ttlSecs > MAX_TICKET_SECS then Refuse(op, Malformed)
    else if !Admits(held, op.fields.ticketEpoch) then Refuse(op, WrongEpoch)
    else if h.drawn.None? then Refuse(op, Busy)
    else
      var t := held.b.(kind := RecoveryTicket, epoch := op.fields.ticketEpoch, retained := 0,
                       revoked := false, consumed := false, revokedMs := 0, issuedMs := h.nowMs,
                       expiryMs := SatAdd(h.nowMs, op.fields.ttlSecs * 1000), grantId := h.drawn.value.0);
      var ticket := Record(t, Names(h.issuer, held.names.tenant, op.fields.recovering), []);
      var o := op.(out := Some(ticket), audit := op.audit.(epoch := op.fields.ticketEpoch));
      SignThen(h, {ticket}, Send(h, o, PutTicket), op)
  }

  /** `start_erase`. */
  function StartErase(h: Host, op: Op, held: Record): Turn {
    var g := held.b;
    var o := op.(audit := op.audit.(epoch := g.epoch, generation := g.generation));
    if !op.fields.EraseScan? then Refuse(o, Malformed)
    else if op.fields.pins != 0 then Refuse(o, EpochPinned)
    else if op.fields.scanned != g.epoch then Refuse(o, WrongEpoch)
    else if g.kind == Erasure then
      EraseNext(h, o.(out := Some(held), cursor := 1))
    else
      var e := g.(kind := Erasure, revoked := true, consumed := false, revokedMs := h.nowMs, issuedMs := h.nowMs,
                  expiryMs := 0, retained := 0, generation := WrapInc(g.generation));
      var erasure := Record(e, Names(h.issuer, held.names.tenant, 0), []);
      var o' := o.(out := Some(erasure), audit := o.audit.(generation := e.generation));
      SignThen(h, {erasure}, Send(h, o', CasGrant), o)
  }

  /** `after_grant`, on the grant the operation holds. */
  function AfterGrant(h: Host, op: Op, held: Record): Turn {
    if op.IsProven() then
      match op.Attach()
      case Err(r) => Refuse(op, r)
      case Ok(req) =>
        if !Admits(held, req.epoch) then Refuse(op, WrongEpoch) else Send(h, op, GetDevice)
    else if op.code == EraseOp then StartErase(h, op, held)
    else
      match RetainedOf(held)
      case Err(r) => Refuse(op, r)
      case Ok(retained) =>
        var o := op.(audit := op.audit.(epoch := held.b.epoch, generation := held.b.generation));
        match op.code
        case RecordSetOp =>
          if !op.fields.RecordSetFields? then Refuse(o, Malformed)
          else if !Admits(held, op.fields.setEpoch) then Refuse(o, WrongEpoch)
          else Send(h, o.(audit := o.audit.(epoch := op.fields.setEpoch)), GetSet)
        case GrantOp | RotateGrantOp => SetPolicy(h, o, held, retained)
        case ReplaceDeviceOp => ReplaceDevice(h, o, held, retained)
        case RevokeOp =>
          if !op.fields.ActorOnly? then Refuse(o, Malformed)
          else if held.b.revoked then Refuse(o, GrantRevoked)
          else ChangeGrant(h, o, held.b.(revoked := true, revokedMs := h.nowMs), held.names.tenant,
                           held.names.device, retained)
        case RetireEpochOp =>
          if !op.fields.EpochOnly? then Refuse(o, Malformed)
          else if op.fields.retired !in retained then Refuse(o, WrongEpoch)
          else ChangeGrant(h, o.(audit := o.audit.(epoch := op.fields.retired)), held.b, held.names.tenant,
                           held.names.device, RetainedRemove(retained, op.fields.retired))
        case RotateKeyOp =>
          if !op.fields.NewKeys? || !KeysOk(op.fields.keys) then Refuse(o, Malformed)
          else if |retained| >= MAX_RETAINED_EPOCHS then Refuse(o, RetainedEpochsFull)
          else Send(h, o, GetCurrentSet)
        case RecoveryAuthoriseOp => AuthoriseRecovery(h, o, held)
        case _ => Refuse(o, Malformed)
  }

  /** `rotate_key`: the current epoch's set is recorded, authorise the next. */
  function RotateKey(h: Host, op: Op, held: Record): Turn {
    if h.drawn.None? then Refuse(op, Busy)
    else
      match RetainedOf(held)
      case Err(r) => Refuse(op, r)
      case Ok(retained) =>
        if !op.fields.NewKeys? || !KeysOk(op.fields.keys) then Refuse(op, Malformed)
        else if held.b.epoch == U32_MAX then Refuse(op, WrongEpoch)
        else
          match RetainedPush(retained, held.b.epoch)
          case Err(r) => Refuse(op, r)
          case Ok(kept) =>
            var next := held.b.epoch + 1;
            var setId := h.drawn.value.0;
            var keys := op.fields.keys;
            var g := held.b.(epoch := next, setId := setId, generation := WrapInc(held.b.generation),
                             issuedMs := h.nowMs,
                             policy := PolicyOf(h.issuer, held.names.tenant, held.b.res, held.b.grantId, setId, next));
            var creation := Record(g.(kind := Creation, purpose := ForRecovery, retained := 0, revoked := false,
                                      consumed := false, revokedMs := 0),
                                   Names(h.issuer, held.names.tenant, 0),
                                   [KeyItem(keys[0]), KeyItem(keys[1]), KeyItem(keys[2])]);
            var grant := GrantRecord(g, Names(h.issuer, held.names.tenant, held.names.device), kept);
            var o := op.(out := Some(creation), aux := Some(grant),
                         audit := op.audit.(epoch := next, generation := g.generation));
            SignThen(h, {creation, grant}, Send(h, o, PutSet), op)
  }

  /** `record_set`: a creation's three custody envelopes are back. */
  function RecordSet(h: Host, op: Op, creation: Record): Turn {
    if creation !in h.signed then Refuse(op, BadSignature)
    else if creation.b.kind != Creation then Refuse(op, Malformed)
    else if !op.fields.RecordSetFields? || op.fields.envs.None? || |op.fields.envs.value| != 3 then Refuse(op, Malformed)
    else if creation.b.res != op.res || creation.b.epoch != op.fields.setEpoch then Refuse(op, WrongEpoch)
    else
      var envs := op.fields.envs.value;
      match CheckCustodySet(creation, envs)
      case Refused(r) => Refuse(op, r)
      case Passed =>
        var recorded := Record(creation.b.(kind := RecoverySet, issuedMs := h.nowMs), creation.names,
                               [EnvelopeItem(envs[0]), EnvelopeItem(envs[1]), EnvelopeItem(envs[2])]);
        var o := op.(out := Some(recorded),
                     audit := op.audit.(epoch := op.fields.setEpoch, generation := creation.b.generation));
        SignThen(h, {recorded}, Send(h, o, CasSet), op)
  }

  // ── Release and renewal ────────────────────────────────────────────────

  /** `decide`: everything a release rests on is read. */
  function Decide(h: Host, op: Op, set_: Record): Turn {
    if set_ !in h.signed || set_.b.kind != RecoverySet || op.grant.NotHeld? then Refuse(op, SetIncomplete)
    else
      match op.Attach()
      case Err(r) => Refuse(op, r)
      case Ok(req) =>
        var ticket := if op.ticket.Held? then Some(op.ticket.rec) else None;
        match DecideRelease(h.issuer, op.grant.rec, set_, ticket, op.facts, req, h.nowMs)
        case Err(r) => Refuse(op, r)
        case Ok(auth) =>
          Send(h, op.(auth := auth, audit := RecordBinding(op.audit, auth)), ClaimReplay)
  }

  /** `decide_renewal`: everything a renewal rests on is read. */
  function Renew(h: Host, op: Op): Turn {
    match op.Attach()
    case Err(r) => Refuse(op, r)
    case Ok(req) =>
      if op.grant.NotHeld? then Refuse(op, Malformed)
      else
        var chain := match op.chain case ChainHead(d, _) => Head(d) case NoHead => Unrenewed;
        match DecideRenewal(h.issuer, h.signed, op.grant.rec, op.fields.attachment, chain, op.facts, req, h.nowMs)
        case Err(r) => Refuse(op, r)
        case Ok(d) =>
          var g := op.grant.rec;
          var renewal := Record(d.b, Names(g.names.issuer, g.names.tenant, req.device),
                                [IdItem(d.attachmentId), DigestItem(d.previous)]);
          var o := op.(out := Some(renewal), auth := d.b, audit := RecordBinding(op.audit, d.b));
          SignThen(h, {renewal}, Send(h, o, ClaimReplay), op)
  }

  /** `consume_ticket`. */
  function ConsumeHeldTicket(h: Host, op: Op): Turn {
    if op.ticket.NotHeld? then Refuse(op, Malformed)
    else
      var t := op.ticket.rec;
      var used := Record(t.b.(consumed := true), t.names, []);
      SignThen(h, {used}, Send(h, op.(aux := Some(used)), ConsumeTicket), op)
  }

  /** `send_order`. */
  function SendOrder(h: Host, op: Op, custodian: nat): Turn {
    var o := op.(asked := op.asked + {custodian});
    if op.set_.NotHeld? || custodian >= |op.set_.rec.items| || !op.set_.rec.items[custodian].EnvelopeItem?
    then Refuse(o, SetIncomplete)
    else if !op.fields.Proven? || op.fields.req.recipient.None? || op.out.None? then Refuse(o, Malformed)
    else if custodian !in h.custodianUp then Refuse(o, Busy)
    else
      Turn(Next(o), [], [RewrapOrder(custodian, op.out.value, op.fields.req.recipient.value,
                                     op.set_.rec.items[custodian].envelope)], {})
  }

  /** The names a release is signed under. */
  function ReleaseNames(op: Op): Names {
    match op.grant
    case Held(g, _) => Names(g.names.issuer, g.names.tenant, if op.fields.Proven? then op.fields.req.device else 0)
    case NotHeld => Names(0, 0, 0)
  }

  /** `order`: sign the authorisation and ask two custodians. */
  function OrderShares(h: Host, op: Op): Turn {
    var authorisation := Record(op.auth, ReleaseNames(op), []);
    var o := op.(out := Some(authorisation), stage := Custodians, deadlineMs := SatAdd(h.nowMs, STAGE_TIMEOUT_MS));
    if !h.signOk then Refuse(op, NoIssuerKey)
    else
      var first := SendOrder(h, o, 0);
      if !first.verdict.Next? then first.(signs := {authorisation})
      else
        var second := SendOrder(h, first.verdict.op, 1);
        Turn(second.verdict, [], first.orders + second.orders, {authorisation})
  }

  /** The lowest custodian not yet asked. */
  function Spare(asked: set<nat>): Option<nat> {
    if 0 !in asked then Some(0) else if 1 !in asked then Some(1) else if 2 !in asked then Some(2) else None
  }

  /** Whether a custodian's answer is the envelope it was asked for. */
  function CheckAnswer(op: Op, custodian: nat, ok: bool, env: Envelope): Check<Refusal> {
    if !ok then Refused(CustodianRefused)
    else
      match CheckReleased(env, op.auth)
      case Err(r) => Refused(r)
      case Ok(index) => if index == custodian + 1 then Passed else Refused(EnvelopeInvalid)
  }

  /** `release`: both envelopes are in. */
  function Release(h: Host, op: Op): Turn
    requires |op.envs| == 2
  {
    match WriteBundle(op.envs[0], op.envs[1], op.auth)
    case Err(r) => Refuse(op, r)
    case Ok(bundle) =>
      var record := Record(op.auth, ReleaseNames(op), [EnvelopeItem(bundle[0]), EnvelopeItem(bundle[1])]);
      if h.signOk then Turn(Done(op.(out := Some(record), envs := bundle)), [], [], {record})
      else Refuse(op, NoIssuerKey)
  }

  /** `custodian_result`. */
  function CustodianResult(h: Host, op: Op, custodian: nat, ok: bool, env: Envelope): Turn {
    if custodian > 2 || custodian !in op.asked || custodian in op.answered then Turn(Next(op), [], [], {})
    else
      var o := op.(answered := op.answered + {custodian});
      match CheckAnswer(op, custodian, ok, env)
      case Passed =>
        if |o.envs| >= 2 then Turn(Next(o), [], [], {})
        else
          var o' := o.(envs := o.envs + [env]);
          if |o'.envs| < 2 then Turn(Next(o'), [], [], {}) else Release(h, o')
      case Refused(r) =>
        match Spare(o.asked)
        case Some(c) => SendOrder(h, o.(deadlineMs := SatAdd(h.nowMs, STAGE_TIMEOUT_MS)), c)
        case None => Refuse(o, r)
  }

  // ── Erasure ────────────────────────────────────────────────────────────

  function SendEraseOrder(h: Host, op: Op, custodian: nat): Turn {
    var o := op.(asked := op.asked + {custodian});
    if op.out.None? then Refuse(o, Malformed)
    else if custodian in h.custodianUp then Turn(Next(o), [], [EraseOrder(custodian, op.out.value)], {})
    else Refuse(o, Busy)
  }

  /** The set of every epoch is gone: have the custodians destroy theirs. */
  function OrderErasure(h: Host, op: Op): Turn {
    var o := op.(stage := EraseCustodians, deadlineMs := SatAdd(h.nowMs, STAGE_TIMEOUT_MS), asked := {}, answered := {});
    var first := SendEraseOrder(h, o, 0);
    if !first.verdict.Next? then first
    else
      var second := SendEraseOrder(h, first.verdict.op, 1);
      if !second.verdict.Next? then second.(orders := first.orders + second.orders)
      else
        var third := SendEraseOrder(h, second.verdict.op, 2);
        third.(orders := first.orders + second.orders + third.orders)
  }

  /** `erase_next`: delete the next epoch's set, or order the custodians. */
  function EraseNext(h: Host, op: Op): Turn {
    if op.cursor <= SatInc(op.audit.epoch) then Send(h, op, EraseGetSet) else OrderErasure(h, op)
  }

  /** `erase_result`. */
  function EraseResult(op: Op, custodian: nat, ok: bool): Turn {
    if custodian > 2 || custodian !in op.asked || custodian in op.answered then Turn(Next(op), [], [], {})
    else
      var o := op.(answered := op.answered + {custodian});
      if !ok then Refuse(o, CustodianRefused)
      else if o.answered == {0, 1, 2} then Allow(o)
      else Turn(Next(o), [], [], {})
  }

  // ── Advancing ──────────────────────────────────────────────────────────

  /** The grant key is read. An erasure stands where the grant stood: every
      operation but the erasure's own retry stops at it. */
  function GrantRead(h: Host, op: Op, status: Status, etag: Etag, value: Value): Turn {
    match ReadStatus(status)
    case Refused(r) => Refuse(op, r)
    case Passed =>
      match VerifyKind(h.signed, value)
      case Err(r) => Refuse(op, r)
      case Ok(kind) =>
        if kind == Grant || (kind == Erasure && op.code == EraseOp)
        then AfterGrant(h, op.(grant := Held(value.rec, etag)), value.rec)
        else if kind == Erasure then Refuse(op, Erased)
        else Refuse(op, Malformed)
  }

  /** A rotation waits for the current epoch's recovery set. */
  function CurrentSetRead(h: Host, op: Op, status: Status, etag: Etag, value: Value): Turn {
    if status == StNotFound then Refuse(op, RotationInProgress)
    else
      match ReadStatus(status)
      case Refused(r) => Refuse(op, r)
      case Passed =>
        match VerifyKind(h.signed, value)
        case Err(r) => Refuse(op, r)
        case Ok(kind) =>
          if kind != RecoverySet || op.grant.NotHeld? then Refuse(op, RotationInProgress)
          else RotateKey(h, op.(set_ := Held(value.rec, etag)), op.grant.rec)
  }

  /** What an operation keeps of a record it will only delete. */
  function HeldForDelete(value: Value, etag: Etag): Held {
    Held(if value.Rec? then value.rec else Record(NO_BINDING, Names(0, 0, 0), []), etag)
  }

  /** The erasure's sweep read the next epoch's set. */
  function SweepRead(h: Host, op: Op, status: Status, etag: Etag, value: Value): Turn {
    if status == StNotFound then EraseNext(h, op.(cursor := SatInc(op.cursor)))
    else
      match ReadStatus(status)
      case Refused(r) => Refuse(op, r)
      case Passed => Send(h, op.(set_ := HeldForDelete(value, etag)), EraseDeleteSet)
  }

  /** The erasure's sweep deleted it. */
  function SweepDeleted(h: Host, op: Op, status: Status): Turn {
    if status != StNotFound && WriteStatus(status).Refused? then Refuse(op, WriteStatus(status).error)
    else EraseNext(h, op.(cursor := SatInc(op.cursor)))
  }

  /** The directory record of the device is read. */
  function DeviceRead(h: Host, op: Op, status: Status): Turn {
    if status == StNotFound then Refuse(op, DeviceUnknown)
    else
      match ReadStatus(status)
      case Refused(r) => Refuse(op, r)
      case Passed =>
        Send(h, op.(facts := h.facts),
             if op.code == RecoverOp then GetTicket else if op.code == RenewOp then GetChain else GetSet)
  }

  function TicketRead(h: Host, op: Op, status: Status, etag: Etag, value: Value): Turn {
    if status == StNotFound then Refuse(op, NoRecoveryTicket)
    else
      match ReadStatus(status)
      case Refused(r) => Refuse(op, r)
      case Passed =>
        match VerifyKind(h.signed, value)
        case Err(r) => Refuse(op, r)
        case Ok(kind) =>
          if kind != RecoveryTicket then Refuse(op, Malformed)
          else Send(h, op.(ticket := Held(value.rec, etag)), GetSet)
  }

  /** The epoch's recovery set, or its creation, is read. */
  function SetRead(h: Host, op: Op, status: Status, etag: Etag, value: Value): Turn {
    if status == StNotFound then Refuse(op, if op.code == RecordSetOp then UnknownResource else SetIncomplete)
    else
      match ReadStatus(status)
      case Refused(r) => Refuse(op, r)
      case Passed =>
        if !value.Rec? then Refuse(op, if op.code == RecordSetOp then Malformed else SetIncomplete)
        else
          var o := op.(set_ := Held(value.rec, etag));
          if op.code == RecordSetOp then RecordSet(h, o, value.rec) else Decide(h, o, value.rec)
  }

  /** The attachment's renewal chain is read. */
  function ChainRead(h: Host, op: Op, status: Status, etag: Etag, value: Value): Turn {
    if status == StOk then
      Renew(h, op.(chain := ChainHead(if value.Rec? then DigestOf(value.rec) else NoDigest, etag)))
    else if status != StNotFound && ReadStatus(status).Refused? then Refuse(op, ReadStatus(status).error)
    else Renew(h, op)
  }

  /** The retired epoch's set is read: destroy it, if there is one. */
  function OldSetRead(h: Host, op: Op, status: Status, etag: Etag, value: Value): Turn {
    if status == StNotFound then Allow(op)
    else
      match ReadStatus(status)
      case Refused(r) => Refuse(op, r)
      case Passed => Send(h, op.(set_ := HeldForDelete(value, etag)), DeleteSet)
  }

  /** The anti-replay claim is answered. */
  function ReplayAnswered(h: Host, op: Op, status: Status): Turn {
    match ReplayClaimResult(status)
    case AlreadyClaimed => Refuse(op, Replayed)
    case Unavailable => Refuse(op, LedgerUnavailable)
    case Fresh =>
      if op.code == RecoverOp then ConsumeHeldTicket(h, op)
      else if op.code == RenewOp then Send(h, op, PutChain)
      else OrderShares(h, op)
  }

  /** A write on the way to another stage is answered. */
  function Stored(h: Host, op: Op, status: Status): Turn {
    match WriteStatus(status)
    case Refused(r) => Refuse(op, r)
    case Passed =>
      match op.stage
      case ConsumeTicket => OrderShares(h, op)
      case PutGrant => Send(h, op, PutSet)
      case PutSet => if op.code == RotateKeyOp then Send(h, op, CasGrant) else Allow(op)
      case _ => Allow(op)
  }

  /** The grant's compare-and-swap is answered. */
  function GrantSwapped(h: Host, op: Op, status: Status): Turn {
    match WriteStatus(status)
    case Refused(r) => Refuse(op, r)
    case Passed =>
      if op.code == EraseOp then EraseNext(h, op.(cursor := 1))
      else if op.code == RetireEpochOp then Send(h, op, GetOldSet)
      else Allow(op)
  }

  /** `advance`: a ledger reply for the stage the operation is in. The answer
      to the audit write is not a turn; see `OnLedgerOp`. */
  function Advance(h: Host, op: Op, status: Status, etag: Etag, value: Value): Turn {
    match op.stage
    case GetGrant => GrantRead(h, op, status, etag, value)
    case GetCurrentSet => CurrentSetRead(h, op, status, etag, value)
    case EraseGetSet => SweepRead(h, op, status, etag, value)
    case EraseDeleteSet => SweepDeleted(h, op, status)
    case GetDevice => DeviceRead(h, op, status)
    case GetTicket => TicketRead(h, op, status, etag, value)
    case GetSet => SetRead(h, op, status, etag, value)
    case GetChain => ChainRead(h, op, status, etag, value)
    case GetOldSet => OldSetRead(h, op, status, etag, value)
    case ClaimReplay => ReplayAnswered(h, op, status)
    case CasGrant => GrantSwapped(h, op, status)
    case ConsumeTicket | PutGrant | PutSet | CasSet | PutTicket | DeleteSet | PutChain => Stored(h, op, status)
    case WriteAudit | Custodians | EraseCustodians | Starting => Turn(Next(op), [], [], {})
  }

  // ── Finishing ──────────────────────────────────────────────────────────

  /** What a call of the service leaves of the operation, and what it said. */
  datatype Outcome = Outcome(
    op: Option<Op>, sends: seq<Request>, orders: seq<Order>, replies: seq<Reply>, signs: set<Record>)

  /** `reply`: a proven decision the audit trail does not hold is withheld. */
  function AnswerTo(op: Op, audited: bool): Reply {
    var refusal := if op.refusal.None? && op.IsProven() && !audited then Some(LedgerUnavailable) else op.refusal;
    Reply(op.caller, op.code, refusal, audited,
          if refusal.None? then op.out else None,
          if op.IsRelease() && refusal.None? && |op.envs| == 2 then op.envs else [],
          None)
  }

  /** The operation as `finish` records its outcome, before the audit write. */
  function Conclude(h: Host, op: Op, refusal: Option<Refusal>): Op {
    var a := op.audit.(refusal := refusal, atMs := h.laterMs,
                       record := if refusal.None? && op.out.Some? then DigestOf(op.out.value) else NoDigest);
    if refusal.None? then op.(refusal := None, audit := a)
    else op.(refusal := refusal, audit := a, out := None, envs := [])
  }

  /** `finish`: audit the decision; answer unaudited when it cannot be sent. */
  function Finish(h: Host, op: Op, refusal: Option<Refusal>): Outcome {
    var o := Conclude(h, op, refusal);
    if h.auditId.Some? && h.auditUp then
      var o' := o.(stage := WriteAudit, auditId := h.auditId.value, deadlineMs := SatAdd(h.laterMs, STAGE_TIMEOUT_MS));
      Outcome(Some(o'), [StageRequest(o')], [], [], {})
    else Outcome(None, [], [], [AnswerTo(o, false)], {})
  }

  /** A turn taken to its end. */
  function Settle(h: Host, t: Turn): Outcome {
    match t.verdict
    case Next(op) => Outcome(Some(op), t.sends, t.orders, [], t.signs)
    case Done(op) =>
      var f := Finish(h, op, None);
      Outcome(f.op, t.sends + f.sends, t.orders, f.replies, t.signs)
    case Fail(op, r) =>
      var f := Finish(h, op, Some(r));
      Outcome(f.op, t.sends + f.sends, t.orders, f.replies, t.signs)
  }

  /** A ledger reply that reached a live operation. */
  function OnLedgerOp(h: Host, op: Op, status: Status, etag: Etag, value: Value): Outcome {
    if op.stage == WriteAudit then Outcome(None, [], [], [AnswerTo(op, status == StOk)], {})
    else Settle(h, Advance(h, op, status, etag, value))
  }

  /** A custodian's answer that reached a live operation. */
  function OnCustodianOp(h: Host, op: Op, custodian: nat, ok: bool, env: Envelope): Outcome {
    Settle(h, if op.stage == EraseCustodians then EraseResult(op, custodian, ok)
              else CustodianResult(h, op, custodian, ok, env))
  }

  /** An operation past its deadline. */
  function OnExpiredOp(h: Host, op: Op): Outcome {
    if op.stage == WriteAudit then Outcome(None, [], [], [AnswerTo(op, false)], {})
    else Settle(h, Refuse(op, if AwaitsCustodians(op.stage) then CustodianRefused else LedgerUnavailable))
  }

  // ── The service ────────────────────────────────────────────────────────

  /** Four operation slots (`None` is free), the challenge table and the
      correlation counter. */
  datatype Svc = Svc(ops: seq<Option<Op>>, challenges: seq<Challenge>, nextCorr: nat)

  function NewSvc(): Svc {
    Svc(seq(MAX_OPS, _ => None), seq(MAX_CHALLENGES, _ => FREE_CHALLENGE), 1)
  }

  predicate AwaitsLedgerReply(o: Option<Op>, corr: nat) {
    o.Some? && o.value.corr == corr && !AwaitsCustodians(o.value.stage)
  }

  predicate AwaitsCustodianReply(o: Option<Op>, corr: nat) {
    o.Some? && o.value.corr == corr && AwaitsCustodians(o.value.stage)
  }

  predicate IsExpired(o: Option<Op>, nowMs: U64) { o.Some? && nowMs >= o.value.deadlineMs }

  /** The first slot that is free, or the number of slots. */
  function FreeSlot(ops: seq<Option<Op>>): (i: nat)
    ensures i <= |ops|
    ensures i < |ops| ==> ops[i].None?
    ensures forall j :: 0 <= j < i ==> ops[j].Some?
  {
    if ops == [] || ops[0].None? then 0 else 1 + FreeSlot(ops[1..])
  }

  /** The first slot awaiting a ledger reply under `corr`. */
  function LedgerSlot(ops: seq<Option<Op>>, corr: nat): (i: nat)
    ensures i <= |ops|
    ensures i < |ops| ==> AwaitsLedgerReply(ops[i], corr)
    ensures forall j :: 0 <= j < i ==> !AwaitsLedgerReply(ops[j], corr)
  {
    if ops == [] || AwaitsLedgerReply(ops[0], corr) then 0 else 1 + LedgerSlot(ops[1..], corr)
  }

  /** The first slot awaiting custodians under `corr`. */
  function CustodianSlot(ops: seq<Option<Op>>, corr: nat): (i: nat)
    ensures i <= |ops|
    ensures i < |ops| ==> AwaitsCustodianReply(ops[i], corr)
    ensures forall j :: 0 <= j < i ==> !AwaitsCustodianReply(ops[j], corr)
  {
    if ops == [] || AwaitsCustodianReply(ops[0], corr) then 0 else 1 + CustodianSlot(ops[1..], corr)
  }

  /** The first slot past its deadline. */
  function ExpiredSlot(ops: seq<Option<Op>>, nowMs: U64): (i: nat)
    ensures i <= |ops|
    ensures i < |ops| ==> IsExpired(ops[i], nowMs)
    ensures forall j :: 0 <= j < i ==> !IsExpired(ops[j], nowMs)
  {
    if ops == [] || IsExpired(ops[0], nowMs) then 0 else 1 + ExpiredSlot(ops[1..], nowMs)
  }

  /** The operation `on_request_from` puts in a free slot. */
  function NewOp(h: Host, caller: nat, corr: nat, p: Payload): Op {
    Op(p.code, Starting, caller, corr, 0, p.Head(), p.fields,
       NotHeld, NotHeld, NotHeld, NoHead, DeviceFacts(false, false, false, 0),
       None, None, NO_BINDING, [], {}, {}, 0,
       NewAudit(p.code, if p.Head().Valid() then p.Head() else Resource(0, 0), h.nowMs), 0, None)
  }

  function RefuseNow(caller: nat, code: OpCode, r: Refusal): Reply {
    Reply(caller, code, Some(r), false, None, [], None)
  }

  function Silent(): Outcome { Outcome(None, [], [], [], {}) }

  /** `issue_challenge`. The device an id field names is never empty. */
  function IssueChallenge(h: Host, cs: seq<Challenge>, caller: nat, p: Payload): (seq<Challenge>, Reply) {
    if !p.res.Valid() || !p.fields.DeviceOnly? || p.fields.device == 0
    then (cs, RefuseNow(caller, p.code, Malformed))
    else if h.nowMs == 0 then (cs, RefuseNow(caller, p.code, LedgerUnavailable))
    else if h.drawn.None? then (cs, RefuseNow(caller, p.code, Busy))
    else
      var expires := SatAdd(h.nowMs, CHALLENGE_TTL_MS);
      var slot := ChallengeSlot(cs, 0, 0);
      var issued := Challenge(h.drawn.value.0, p.res, p.fields.device, expires);
      (if slot < |cs| then cs[slot := issued] else cs,
       Reply(caller, p.code, None, true, None, [], Some((issued.nonce, expires))))
  }

  /** `on_request_from`. */
  function OnRequest(s: Svc, h: Host, caller: nat, p: Payload): (Svc, Outcome) {
    if p.code == ChallengeOp then
      var (cs, reply) := IssueChallenge(h, s.challenges, caller, p);
      (s.(challenges := cs), Silent().(replies := [reply]))
    else if !h.keyLoaded then (s, Silent().(replies := [RefuseNow(caller, p.code, NoIssuerKey)]))
    else if h.nowMs == 0 then (s, Silent().(replies := [RefuseNow(caller, p.code, LedgerUnavailable)]))
    else
      var i := FreeSlot(s.ops);
      if i == |s.ops| then (s, Silent().(replies := [RefuseNow(caller, p.code, Busy)]))
      else
        var (cs, turn) := Start(h, s.challenges, NewOp(h, caller, s.nextCorr, p));
        var r := Settle(h, turn);
        (Svc(s.ops[i := r.op], cs, s.nextCorr + 1), r)
  }

  /** `on_ledger`. */
  function OnLedger(s: Svc, h: Host, corr: nat, status: Status, etag: Etag, value: Value): (Svc, Outcome) {
    var i := LedgerSlot(s.ops, corr);
    if i == |s.ops| then (s, Silent())
    else
      var r := OnLedgerOp(h, s.ops[i].value, status, etag, value);
      (s.(ops := s.ops[i := r.op]), r)
  }

  /** `on_custodian`. */
  function OnCustodian(s: Svc, h: Host, corr: nat, custodian: nat, ok: bool, env: Envelope): (Svc, Outcome) {
    var i := CustodianSlot(s.ops, corr);
    if i == |s.ops| then (s, Silent())
    else
      var r := OnCustodianOp(h, s.ops[i].value, custodian, ok, env);
      (s.(ops := s.ops[i := r.op]), r)
  }

  /** The challenge table with what has expired cleared. */
  function ExpireChallenges(cs: seq<Challenge>, nowMs: U64): seq<Challenge> {
    seq(|cs|, i requires 0 <= i < |cs| =>
      if cs[i].expiresMs != 0 && nowMs >= cs[i].expiresMs then FREE_CHALLENGE else cs[i])
  }

  /** `tick`: at most one operation expires. */
  function Tick(s: Svc, h: Host): (Svc, Outcome) {
    var cs := ExpireChallenges(s.challenges, h.nowMs);
    var i := ExpiredSlot(s.ops, h.nowMs);
    if i == |s.ops| then (s.(challenges := cs), Silent())
    else
      var r := OnExpiredOp(h, s.ops[i].value);
      (Svc(s.ops[i := r.op], cs, s.nextCorr), r)
  }
}
