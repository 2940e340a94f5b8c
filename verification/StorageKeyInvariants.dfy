/** What every reachable state keeps. Facts about operations and messages
    mention only the log of applied writes, which never shrinks, so they stay
    true whatever happens elsewhere. */
module StorageKeyInvariants {
  import opened Basics
  import opened StorageKey
  import opened Ledger
  import opened StorageKeyService
  import opened StorageKeySystem

  // ── How one key's values follow each other ─────────────────────────────

  ghost function Retained(grant: Record): seq<U32> {
    match RetainedOf(grant) case Ok(es) => es case Err(_) => []
  }

  /** A well-formed grant: an epoch, and retained epochs that read back. */
  ghost predicate IsGrant(rec: Record) {
    rec.b.kind == Grant && RetainedOf(rec).Ok? && rec.b.epoch >= 1
  }

  /** The second list is the first with one element left out. */
  ghost predicate DropsOne(before: seq<U32>, after: seq<U32>) {
    exists k: nat :: k < |before| && after == before[..k] + before[k + 1..]
  }

  /** One step in a resource's grant history. */
  ghost predicate GrantSucc(old_: Record, new_: Record) {
    && IsGrant(old_)
    && new_.b.res == old_.b.res
    && new_.b.grantId == old_.b.grantId
    && new_.b.generation == WrapInc(old_.b.generation)
    && (|| (new_.b.kind == Erasure && new_.b.epoch == old_.b.epoch)
        || (&& IsGrant(new_)
            && (|| (&& new_.b.epoch == old_.b.epoch
                    && new_.b.setId == old_.b.setId
                    && (Retained(new_) == Retained(old_) || DropsOne(Retained(old_), Retained(new_))))
                || (&& new_.b.epoch == old_.b.epoch + 1
                    && Retained(new_) == Retained(old_) + [old_.b.epoch]))))
  }

  /** Any number of steps: epochs only rise, nothing is admitted again, and an
      erasure is the end. */
  ghost predicate GrantLe(a: Record, b: Record) {
    || a == b
    || (&& IsGrant(a)
        && b.b.res == a.b.res
        && b.b.grantId == a.b.grantId
        && (|| b.b.kind == Erasure
            || (&& IsGrant(b)
                && a.b.epoch <= b.b.epoch
                && (a.b.epoch == b.b.epoch ==> a.b.setId == b.b.setId)
                && (forall e: U32 :: e <= a.b.epoch && Admits(b, e) ==> Admits(a, e)))))
  }

  /** What no renewal of an attachment changes. */
  ghost predicate SameAttachment(a: Record, b: Record) {
    && a.b.res == b.b.res && a.b.epoch == b.b.epoch && a.b.fence == b.b.fence
    && a.b.recipient == b.b.recipient && a.b.setId == b.b.setId && a.b.policy == b.b.policy
    && a.b.grantId == b.b.grantId && a.b.aead == b.b.aead
    && a.names.device == b.names.device && a.names.tenant == b.names.tenant
    && AttachmentId(a) == AttachmentId(b)
  }

  /** The record a renewal names as the one it renews. */
  ghost function Renewed(rec: Record): Option<Record> {
    if |rec.items| == 2 && rec.items[1].DigestItem? && rec.items[1].digest.DigestOf?
    then Some(rec.items[1].digest.rec) else None
  }

  ghost predicate IsRenewalOf(rec: Record, previous: Record) {
    && rec.b.kind == Renewal
    && Renewed(rec) == Some(previous)
    && AttachmentId(previous).Some?
    && SameAttachment(previous, rec)
  }

  /** A completed release: both envelopes are in. */
  ghost predicate Completed(rec: Record) {
    (rec.b.kind == Attachment || rec.b.kind == Recovery) && |rec.items| == 2
  }

  ghost predicate FirstGrant(rec: Record) {
    IsGrant(rec) && rec.b.epoch == 1 && rec.b.generation == 1 && Retained(rec) == []
  }

  /** What may be the first value under a key. */
  ghost predicate First(k: Key, v: Value) {
    match k
    case GrantKey(r) => v.Rec? && v.rec.b.res == r && FirstGrant(v.rec)
    case TicketKey(r, t) =>
      v.Rec? && v.rec.b.kind == RecoveryTicket && v.rec.b.res == r && v.rec.b.grantId == t && !v.rec.b.consumed
    case ChainKey(r, id) =>
      v.Rec? && v.rec.b.res == r && AttachmentId(v.rec) == Some(id) && Renewed(v.rec).Some?
      && IsRenewalOf(v.rec, Renewed(v.rec).value) && Renewed(v.rec).value.b.kind == Attachment
    case AuditKey(_, _, _) => v.AuditEntry?
    case ReplayKey(_) => v.Claim?
    case SetKey(r, e) => v.Rec? && v.rec.b.kind == Creation && v.rec.b.res == r && v.rec.b.epoch == e
    case DeviceKey(_) => true
  }

  /** What may replace a value under a key. */
  ghost predicate Succ(k: Key, old_: Value, new_: Value) {
    match k
    case GrantKey(r) => old_.Rec? && new_.Rec? && old_.rec.b.res == r && GrantSucc(old_.rec, new_.rec)
    case TicketKey(r, t) =>
      old_.Rec? && new_.Rec? && !old_.rec.b.consumed && new_.rec.b == old_.rec.b.(consumed := true)
      && new_.rec.names == old_.rec.names
    case ChainKey(r, id) =>
      old_.Rec? && new_.Rec? && new_.rec.b.res == r && AttachmentId(new_.rec) == Some(id)
      && IsRenewalOf(new_.rec, old_.rec)
    case SetKey(r, e) =>
      old_.Rec? && new_.Rec? && old_.rec.b.kind == Creation && new_.rec.b.kind == RecoverySet
      && new_.rec.b.res == r && new_.rec.b.epoch == e && new_.rec.b.setId == old_.rec.b.setId
    case AuditKey(_, _, _) => false
    case ReplayKey(_) => false
    case DeviceKey(_) => true
  }

  /** Keys no request ever deletes. */
  ghost predicate Permanent(k: Key) { !k.SetKey? && !k.DeviceKey? }

  // ── Facts the log holds for ever ───────────────────────────────────────

  ghost predicate WroteAt(log: seq<Write>, i: nat, k: Key, v: Value) {
    i < |log| && log[i].key == k && log[i].value == v
  }

  ghost predicate Wrote(log: seq<Write>, who: Who, k: Key, v: Value) {
    exists i: nat :: i < |log| && log[i] == Write(k, v, ByOp(who))
  }

  ghost predicate Claimed(log: seq<Write>, who: Who, antiReplay: Id) {
    Wrote(log, who, ReplayKey(antiReplay), Claim)
  }

  /** The operation marked ticket `t` of `r`, for epoch `e`, used. */
  ghost predicate Spent(log: seq<Write>, who: Who, r: Resource, t: Id, e: U32) {
    exists i: nat :: i < |log| && log[i].writer == ByOp(who) && log[i].key == TicketKey(r, t)
      && log[i].value.Rec? && log[i].value.rec.b.consumed && log[i].value.rec.b.epoch == e
  }

  /** The operation used a ticket for the resource and epoch it releases. */
  ghost predicate SpentSome(log: seq<Write>, who: Who, b: Binding) {
    exists t :: Spent(log, who, b.res, t, b.epoch)
  }

  /** The operation wrote an audit entry that allows `code` and names `rec`. */
  ghost predicate Audited(log: seq<Write>, who: Who, code: OpCode, rec: Record) {
    exists i: nat :: i < |log| && log[i].writer == ByOp(who) && log[i].key.AuditKey?
      && log[i].value.AuditEntry? && log[i].value.audit.refusal.None? && log[i].value.audit.op == code
      && log[i].value.audit.record == DigestOf(rec)
  }

  /** The grant stopped admitting `e`, or the resource was erased. */
  ghost predicate Dead(log: seq<Write>, r: Resource, e: U32) {
    exists i: nat :: i < |log| && log[i].key == GrantKey(r) && log[i].value.Rec?
      && (|| log[i].value.rec.b.kind == Erasure
          || (IsGrant(log[i].value.rec) && e < log[i].value.rec.b.epoch && !Admits(log[i].value.rec, e)))
  }

  ghost predicate WasErased(log: seq<Write>, r: Resource) {
    exists i: nat :: i < |log| && log[i].key == GrantKey(r) && log[i].value.Rec? && log[i].value.rec.b.kind == Erasure
  }

  /** Some grant admitted `e`. */
  ghost predicate WasAdmitted(log: seq<Write>, r: Resource, e: U32) {
    exists i: nat :: i < |log| && log[i].key == GrantKey(r) && log[i].value.Rec?
      && IsGrant(log[i].value.rec) && Admits(log[i].value.rec, e)
  }

  /** A grant that `c` creates the set of, or that a rotation left. */
  ghost predicate CreationBacked(log: seq<Write>, r: Resource, e: U32, setId: Id) {
    exists i: nat :: i < |log| && log[i].key == GrantKey(r) && log[i].value.Rec? && IsGrant(log[i].value.rec)
      && (|| (e == 1 && log[i].value.rec.b.epoch == 1 && log[i].value.rec.b.setId == setId)
          || log[i].value.rec.b.epoch + 1 == e)
  }

  ghost predicate HasCreation(log: seq<Write>, r: Resource, e: U32, setId: Id) {
    exists i: nat :: i < |log| && log[i].key == SetKey(r, e) && log[i].value.Rec?
      && log[i].value.rec.b.kind == Creation && log[i].value.rec.b.setId == setId
  }

  ghost predicate HasRecoverySet(log: seq<Write>, r: Resource, e: U32) {
    exists i: nat :: i < |log| && log[i].key == SetKey(r, e) && log[i].value.Rec?
      && log[i].value.rec.b.kind == RecoverySet
  }

  /** A rotation's grant may be stored once both epochs' sets are. */
  ghost predicate RotationBacked(log: seq<Write>, old_: Record, new_: Record) {
    new_.b.kind == Grant && new_.b.epoch != old_.b.epoch ==>
      && HasCreation(log, new_.b.res, new_.b.epoch, new_.b.setId)
      && HasRecoverySet(log, old_.b.res, old_.b.epoch)
  }

  /** An audit entry that allows a release or renewal stands on its claim. */
  ghost predicate AuditBacked(log: seq<Write>, who: Who, a: Audit) {
    (a.op == AttachOp || a.op == RecoverOp || a.op == RenewOp) && a.refusal.None? ==>
      && a.record.DigestOf?
      && Claimed(log, who, a.antiReplay)
      && a.record.rec.b.antiReplay == a.antiReplay
      && (a.op == RecoverOp ==> SpentSome(log, who, a.record.rec.b))
      && (a.op == RenewOp ==> Wrote(log, who, ChainKey(a.record.rec.b.res, ChainId(a.record.rec)), Rec(a.record.rec)))
      && (a.op != RenewOp ==> Completed(a.record.rec))
  }

  /** A grant that admits what the binding authorises `device` to: for a device
      of its own, one that names it and is not revoked. */
  ghost predicate AdmitsBinding(g: Record, b: Binding, device: Id) {
    && IsGrant(g) && g.b.grantId == b.grantId && g.b.generation == b.generation && Admits(g, b.epoch)
    && 0 < b.lifetimeSecs <= g.b.lifetimeSecs
    && (b.kind != Recovery ==> !g.b.revoked && g.names.device == device && device != 0)
  }

  /** Such a grant stood, and for a release the epoch's set was recorded. */
  ghost predicate Granted(log: seq<Write>, b: Binding, device: Id) {
    && (exists i: nat :: i < |log| && log[i].key == GrantKey(b.res) && log[i].value.Rec?
          && AdmitsBinding(log[i].value.rec, b, device))
    && (b.kind != Renewal ==>
          exists i: nat :: i < |log| && log[i].key == SetKey(b.res, b.epoch) && log[i].value.Rec?
            && log[i].value.rec.b.kind == RecoverySet && log[i].value.rec.b.setId == b.setId)
  }

  /** The grant behind the operation's authorisation. */
  ghost predicate GrantedTo(log: seq<Write>, op: Op) {
    op.grant.Held? && op.fields.Proven? && Granted(log, op.auth, op.fields.req.device)
  }

  ghost function ChainId(rec: Record): Id {
    match AttachmentId(rec) case Some(id) => id case None => 0
  }

  // ── Messages and operations ────────────────────────────────────────────

  /** What makes a request safe to apply, whenever it arrives. */
  ghost predicate ReqOk(log: seq<Write>, who: Who, req: Request) {
    match req
    case Get(_) => true
    case PutIfAbsent(k, v) =>
      && First(k, v)
      && !k.DeviceKey?
      && (k.SetKey? ==> CreationBacked(log, k.res, k.epoch, v.rec.b.setId))
      && (k.AuditKey? ==> AuditBacked(log, who, v.audit))
    case CompareAndSwap(k, e, v) =>
      && !k.DeviceKey?
      && e < |log| && log[e].key == k && Succ(k, log[e].value, v)
      && (k.GrantKey? ==> RotationBacked(log, log[e].value.rec, v.rec))
      && (k.SetKey? ==> WasAdmitted(log, k.res, k.epoch))
    case Delete(k, _) => k.SetKey? && Dead(log, k.res, k.epoch)
  }

  /** What a reply that says OK establishes. */
  ghost predicate AckOk(log: seq<Write>, p: Packet)
    requires p.Ack?
  {
    p.status == StOk ==>
      match p.req
      case Get(k) => WroteAt(log, p.etag, k, p.value)
      case PutIfAbsent(k, v) => Wrote(log, p.who, k, v)
      case CompareAndSwap(k, _, v) => Wrote(log, p.who, k, v)
      case Delete(_, _) => true
  }

  ghost predicate HoldsGrant(log: seq<Write>, op: Op) {
    op.grant.Held? && WroteAt(log, op.grant.etag, GrantKey(op.res), Rec(op.grant.rec)) && IsGrant(op.grant.rec)
  }

  ghost predicate HoldsTicket(log: seq<Write>, op: Op) {
    op.ticket.Held? && WroteAt(log, op.ticket.etag, TicketKey(op.res, AttachTicket(op)), Rec(op.ticket.rec))
  }

  /** A chain head an operation holds is one the log has. */
  ghost predicate HoldsHead(log: seq<Write>, op: Op) {
    op.chain.ChainHead? ==>
      && op.chain.etag < |log|
      && log[op.chain.etag].key == ChainKey(op.res, AttachTicket(op))
      && log[op.chain.etag].value.Rec?
      && op.chain.digest == DigestOf(log[op.chain.etag].value.rec)
  }

  /** A renewal signed and ready to be stored at the chain it continues. */
  ghost predicate RenewalReady(log: seq<Write>, op: Op) {
    && op.out.Some?
    && op.out.value.b == op.auth
    && AttachmentId(op.out.value) == Some(AttachTicket(op))
    && op.out.value.b.res == op.res
    && (op.fields.Proven? ==> op.out.value.names.device == op.fields.req.device)
    && match op.chain
       case NoHead => First(ChainKey(op.res, AttachTicket(op)), Rec(op.out.value))
       case ChainHead(_, e) =>
         e < |log| && log[e].key == ChainKey(op.res, AttachTicket(op))
         && Succ(ChainKey(op.res, AttachTicket(op)), log[e].value, Rec(op.out.value))
  }

  /** The envelopes gathered so far were released under the authorisation by
      different custodians, and nobody answered who was not asked. */
  ghost predicate Gathering(op: Op) {
    && |op.envs| <= 2
    && (forall i :: 0 <= i < |op.envs| ==>
          CheckReleased(op.envs[i], op.auth).Ok? && op.envs[i].index - 1 in op.answered)
    && (forall i, j :: 0 <= i < j < |op.envs| ==> op.envs[i].index != op.envs[j].index)
    && op.answered <= op.asked <= {0, 1, 2}
  }

  /** A decision ready to be audited as allowed. */
  ghost predicate Decided(log: seq<Write>, who: Who, op: Op) {
    op.IsProven() ==>
      && op.out.Some?
      && op.out.value.b == op.auth
      && op.auth.res == op.res
      && op.audit.op == op.code
      && op.audit.antiReplay == op.auth.antiReplay
      && Claimed(log, who, op.auth.antiReplay)
      && (op.code == RecoverOp ==> op.auth.kind == Recovery && SpentSome(log, who, op.auth))
      && (op.code == AttachOp ==> op.auth.kind == Attachment)
      && (op.code == RenewOp ==>
            Wrote(log, who, ChainKey(op.res, AttachTicket(op)), Rec(op.out.value)) && AttachmentId(op.out.value) == Some(AttachTicket(op)))
      && (op.IsRelease() ==> BundleOf(op.out.value, op.envs))
      && Granted(log, op.auth, op.out.value.names.device)
  }

  /** The bundle is the record's two envelopes: distinct shares, ascending,
      each released under exactly this authorisation. */
  ghost predicate BundleOf(rec: Record, bundle: seq<Envelope>) {
    && |bundle| == 2
    && rec.items == [EnvelopeItem(bundle[0]), EnvelopeItem(bundle[1])]
    && CheckReleased(bundle[0], rec.b).Ok? && CheckReleased(bundle[1], rec.b).Ok?
    && 1 <= bundle[0].index < bundle[1].index <= 3
  }

  /** What an operation that has not been refused knows at each stage. */
  ghost predicate OpOk(log: seq<Write>, who: Who, op: Op) {
    && op.stage != Starting
    && op.audit.op == op.code
    && (op.fields.Proven? ==> op.res == op.fields.req.res)
    && (!AwaitsCustodians(op.stage) ==> ReqOk(log, who, StageRequest(op)))
    && StageOk(log, who, op)
  }

  /** No chain read and no custodian asked yet; the audit names the epoch asked for. */
  ghost predicate Untouched(op: Op) {
    && op.chain.NoHead? && op.envs == [] && op.asked == {} && op.answered == {}
    && (op.IsProven() && op.fields.Proven? ==> op.audit.epoch == op.fields.req.epoch)
  }

  ghost predicate StageOk(log: seq<Write>, who: Who, op: Op) {
    match op.stage
    case Starting => false
    case GetGrant => op.code != CreateOp && Untouched(op)
    case GetDevice => op.IsProven() && HoldsGrant(log, op) && op.fields.Proven? && Untouched(op)
    case GetTicket => op.code == RecoverOp && HoldsGrant(log, op) && op.fields.Proven? && Untouched(op)
    case GetChain => op.code == RenewOp && HoldsGrant(log, op) && op.fields.Proven? && Untouched(op)
    case GetSet =>
      && Untouched(op)
      && HoldsGrant(log, op)
      && (op.code == RecordSetOp || (op.IsRelease() && op.fields.Proven?))
      && (op.code == RecordSetOp ==>
            && op.fields.RecordSetFields? && op.fields.setEpoch == op.audit.epoch
            && Admits(op.grant.rec, op.audit.epoch))
      && (op.code == RecoverOp ==> HoldsTicket(log, op))
    case GetCurrentSet => op.code == RotateKeyOp && HoldsGrant(log, op)
    case ClaimReplay =>
      && op.IsProven() && op.fields.Proven? && GrantedTo(log, op)
      && op.auth.res == op.res
      && op.audit.antiReplay == op.auth.antiReplay
      && (op.code == AttachOp ==> op.auth.kind == Attachment)
      && (op.code == RecoverOp ==> op.auth.kind == Recovery && HoldsTicket(log, op) && !op.ticket.rec.b.consumed && op.ticket.rec.b.epoch == op.auth.epoch)
      && (op.code == RenewOp ==> RenewalReady(log, op))
      && (op.IsRelease() ==> op.envs == [] && op.asked == {} && op.answered == {})
    case ConsumeTicket =>
      && op.code == RecoverOp && op.fields.Proven? && GrantedTo(log, op)
      && op.auth.res == op.res && op.auth.kind == Recovery
      && op.audit.antiReplay == op.auth.antiReplay
      && Claimed(log, who, op.auth.antiReplay)
      && op.aux.Some? && op.aux.value.b.consumed && op.aux.value.b.epoch == op.auth.epoch
      && op.envs == [] && op.asked == {} && op.answered == {}
    case Custodians =>
      && op.IsRelease() && op.fields.Proven? && GrantedTo(log, op)
      && op.auth.res == op.res
      && op.audit.antiReplay == op.auth.antiReplay
      && Claimed(log, who, op.auth.antiReplay)
      && (op.code == AttachOp ==> op.auth.kind == Attachment)
      && (op.code == RecoverOp ==> op.auth.kind == Recovery && SpentSome(log, who, op.auth))
      && Gathering(op)
      && op.out.Some? && op.out.value.b == op.auth && op.out.value.items == []
      && op.out.value.names.device == op.fields.req.device
    case PutChain =>
      && op.code == RenewOp && op.fields.Proven? && GrantedTo(log, op)
      && RenewalReady(log, op)
      && op.auth.res == op.res
      && op.audit.antiReplay == op.auth.antiReplay
      && Claimed(log, who, op.auth.antiReplay)
    case PutGrant =>
      && op.code == CreateOp && op.aux.Some? && op.out.Some?
      && op.out.value.b.kind == Creation && op.out.value.b.res == op.res && op.out.value.b.epoch == 1
      && op.out.value.b.setId == op.aux.value.b.setId && op.audit.epoch == 1
    case PutSet =>
      && (op.code == CreateOp || op.code == RotateKeyOp)
      && op.out.Some?
      && (op.code == RotateKeyOp ==>
            && HoldsGrant(log, op) && op.aux.Some?
            && GrantSucc(op.grant.rec, op.aux.value)
            && op.aux.value.b.kind == Grant
            && op.aux.value.b.epoch == op.grant.rec.b.epoch + 1 == op.audit.epoch
            && op.out.value.b.kind == Creation
            && op.out.value.b.setId == op.aux.value.b.setId
            && HasRecoverySet(log, op.res, op.grant.rec.b.epoch))
    case CasGrant =>
      && !op.IsProven() && op.code != CreateOp && op.code != RecordSetOp
      && (op.code == EraseOp ==> op.out.Some? && op.out.value.b.kind == Erasure)
      && (op.code == RetireEpochOp ==>
            op.out.Some? && IsGrant(op.out.value) && op.audit.epoch < op.out.value.b.epoch
            && !Admits(op.out.value, op.audit.epoch))
    case GetOldSet | DeleteSet => op.code == RetireEpochOp && Dead(log, op.res, op.audit.epoch)
    case EraseGetSet | EraseDeleteSet | EraseCustodians => op.code == EraseOp && WasErased(log, op.res)
    case CasSet => op.code == RecordSetOp
    case PutTicket => op.code == RecoveryAuthoriseOp
    case WriteAudit =>
      && Decided(log, who, op)
      && op.audit.refusal.None?
      && (op.IsProven() ==> op.audit.record == DigestOf(op.out.value))
  }

  /** What a reply stands on when it leaves. */
  ghost predicate ReplyOk(log: seq<Write>, from: Option<Who>, r: Reply) {
    && (r.refusal.Some? ==> r.record.None? && r.bundle == [])
    && (!r.audited && (r.code == AttachOp || r.code == RecoverOp || r.code == RenewOp) ==> r.record.None? && r.bundle == [])
    && (r.bundle != [] ==> r.record.Some? && (r.code == AttachOp || r.code == RecoverOp))
    && (r.record.Some? && (r.code == AttachOp || r.code == RecoverOp || r.code == RenewOp) ==>
          && from.Some?
          && Claimed(log, from.value, r.record.value.b.antiReplay)
          && Granted(log, r.record.value.b, r.record.value.names.device)
          && Audited(log, from.value, r.code, r.record.value)
          && (r.code == RecoverOp ==> SpentSome(log, from.value, r.record.value.b))
          && (r.code == RenewOp ==>
                Wrote(log, from.value, ChainKey(r.record.value.b.res, ChainId(r.record.value)), Rec(r.record.value)))
          && (r.code != RenewOp ==> BundleOf(r.record.value, r.bundle)))
  }

  /** What an order to a custodian stands on. */
  ghost predicate OrderOk(log: seq<Write>, who: Who, o: Order) {
    o.RewrapOrder? ==>
      && (o.record.b.kind == Attachment || o.record.b.kind == Recovery)
      && o.record.items == []
      && Claimed(log, who, o.record.b.antiReplay)
      && Granted(log, o.record.b, o.record.names.device)
      && (o.record.b.kind == Recovery ==> SpentSome(log, who, o.record.b))
  }

  // ── The log ────────────────────────────────────────────────────────────

  /** `j` is the next write to its key after `i`. */
  ghost predicate Follows(log: seq<Write>, i: nat, j: nat) {
    && i < j < |log|
    && log[i].key == log[j].key
    && (forall m: nat :: i < m < j ==> log[m].key != log[j].key)
  }

  ghost predicate IsFirst(log: seq<Write>, j: nat) {
    j < |log| && forall m: nat :: m < j ==> log[m].key != log[j].key
  }

  /** Every permanent key's values begin and follow each other as they may. */
  ghost predicate Chained(log: seq<Write>) {
    && (forall j: nat :: IsFirst(log, j) && Permanent(log[j].key) ==> First(log[j].key, log[j].value))
    && (forall i: nat, j: nat :: Follows(log, i, j) && Permanent(log[j].key) ==>
          Succ(log[j].key, log[i].value, log[j].value))
  }

  /** Grants and sets in the log are of their key. */
  ghost predicate Typed(log: seq<Write>) {
    forall i: nat :: i < |log| ==>
      && (log[i].key.GrantKey? ==>
            && log[i].value.Rec? && log[i].value.rec.b.res == log[i].key.res
            && (IsGrant(log[i].value.rec) || log[i].value.rec.b.kind == Erasure))
      && (log[i].key.SetKey? ==>
            && log[i].value.Rec? && log[i].value.rec.b.res == log[i].key.res
            && log[i].value.rec.b.epoch == log[i].key.epoch
            && (log[i].value.rec.b.kind == Creation || log[i].value.rec.b.kind == RecoverySet))
      && (log[i].key.ChainKey? ==>
            && log[i].value.Rec? && log[i].value.rec.b.res == log[i].key.res && log[i].value.rec.b.kind == Renewal
            && AttachmentId(log[i].value.rec) == Some(log[i].key.attachment))
      && (log[i].key.TicketKey? ==> log[i].value.Rec?)
  }

  /** Grant histories only move forward. */
  ghost predicate Ordered(log: seq<Write>) {
    forall i: nat, j: nat | i <= j < |log| && log[i].key.GrantKey? && log[i].key == log[j].key ::
      log[i].value.Rec? && log[j].value.Rec? ==> GrantLe(log[i].value.rec, log[j].value.rec)
  }

  /** Every allowed audit entry of a proven operation was backed when written. */
  ghost predicate TrailBacked(log: seq<Write>) {
    forall i: nat :: i < |log| && log[i].key.AuditKey? && log[i].writer.ByOp? ==>
      log[i].value.AuditEntry? && AuditBacked(log[..i], log[i].writer.who, log[i].value.audit)
  }

  ghost predicate LogOk(log: seq<Write>) {
    Chained(log) && Typed(log) && Ordered(log) && TrailBacked(log)
  }

  // ── The ledger against the log ─────────────────────────────────────────

  /** The ledger holds the last write to each of its keys, and no permanent
      key was lost. */
  ghost predicate LedgerOk(s: Storage) {
    && (forall k :: k in s.ledger ==>
          && WroteAt(s.log, s.ledger[k].etag, k, s.ledger[k].value)
          && (forall j: nat :: s.ledger[k].etag < j < |s.log| ==> s.log[j].key != k))
    && (forall i: nat :: i < |s.log| && Permanent(s.log[i].key) ==> s.log[i].key in s.ledger)
  }

  ghost function CurrentGrant(s: Storage, r: Resource): Option<Record> {
    if GrantKey(r) in s.ledger && s.ledger[GrantKey(r)].value.Rec? then Some(s.ledger[GrantKey(r)].value.rec) else None
  }

  ghost predicate SetHeld(s: Storage, r: Resource, e: U32) {
    SetKey(r, e) in s.ledger && s.ledger[SetKey(r, e)].value.Rec?
  }

  /** Retained epochs have their sets, and the current one has its own. */
  ghost predicate SetsStand(s: Storage, r: Resource, g: Record) {
    && (forall e :: e in Retained(g) ==>
          SetHeld(s, r, e) && s.ledger[SetKey(r, e)].value.rec.b.kind == RecoverySet)
    && (g.b.epoch == 1 || SetHeld(s, r, g.b.epoch))
    && (SetHeld(s, r, g.b.epoch) ==> s.ledger[SetKey(r, g.b.epoch)].value.rec.b.setId == g.b.setId)
  }

  /** Beyond the current epoch there are only creations, where they were put. */
  ghost predicate SetsAhead(s: Storage, r: Resource, g: Record) {
    forall i: nat | i < |s.log| && s.log[i].key.SetKey? && s.log[i].key.res == r ::
      s.log[i].key.epoch > g.b.epoch ==>
        && s.log[i].value.Rec? && s.log[i].value.rec.b.kind == Creation
        && s.log[i].key in s.ledger && s.ledger[s.log[i].key].etag == i
  }

  /** A set recorded for an admitted epoch is still there. */
  ghost predicate SetsStay(s: Storage, r: Resource, g: Record) {
    forall i: nat | i < |s.log| && s.log[i].key.SetKey? && s.log[i].key.res == r && Admits(g, s.log[i].key.epoch) ::
      s.log[i].value.Rec? && s.log[i].value.rec.b.kind == RecoverySet ==>
        s.log[i].key in s.ledger && s.ledger[s.log[i].key].etag == i
  }

  /** The recovery sets of a resource against its grant. */
  ghost predicate SetsOk(s: Storage, r: Resource, g: Record) {
    SetsStand(s, r, g) && SetsAhead(s, r, g) && SetsStay(s, r, g)
  }

  /** Every set in the log has a grant; every live grant has its sets. */
  ghost predicate CustodyOk(s: Storage) {
    && (forall i: nat :: i < |s.log| && s.log[i].key.SetKey? ==> GrantKey(s.log[i].key.res) in s.ledger)
    && (forall r :: CurrentGrant(s, r).Some? && CurrentGrant(s, r).value.b.kind == Grant ==>
          SetsOk(s, r, CurrentGrant(s, r).value))
  }

  ghost predicate StoreOk(s: Storage) { LogOk(s.log) && LedgerOk(s) && CustodyOk(s) }

  // ── The network and the instances ──────────────────────────────────────

  ghost predicate PacketOk(s: System, u: nat)
    requires u in s.net
  {
    var p := s.net[u];
    && u < s.nextUid
    && p.who.inst < s.nextInst
    && (p.who.inst in s.svcs ==> p.who.corr < s.svcs[p.who.inst].nextCorr)
    && (p.Ask? ==> ReqOk(s.store.log, p.who, p.req))
    && (p.Ack? ==> AckOk(s.store.log, p))
  }

  ghost predicate NetOk(s: System) {
    forall u :: u in s.net ==> PacketOk(s, u)
  }

  ghost predicate Live(s: System, inst: nat, i: nat) {
    inst in s.svcs && i < |s.svcs[inst].ops| && s.svcs[inst].ops[i].Some?
  }

  ghost function OpAt(s: System, inst: nat, i: nat): Op
    requires Live(s, inst, i)
  {
    s.svcs[inst].ops[i].value
  }

  /** The only message an operation that is not refused may have under way. */
  ghost predicate Pairing(s: System, inst: nat, op: Op) {
    && (forall u :: u in s.net && s.net[u].who == Who(inst, op.corr) ==>
          !AwaitsCustodians(op.stage) && s.net[u].req == StageRequest(op))
    && (forall u, w | u in s.net && w in s.net ::
          s.net[u].who == Who(inst, op.corr) && s.net[w].who == Who(inst, op.corr) ==> u == w)
  }

  /** What an operation in its slot keeps; once refused it only waits for its
      audit entry, with nothing left to hand out. */
  ghost predicate SlotOk(s: System, inst: nat, i: nat)
    requires Live(s, inst, i)
  {
    var op := OpAt(s, inst, i);
    && op.corr < s.svcs[inst].nextCorr
    && (op.refusal.None? ==> OpOk(s.store.log, Who(inst, op.corr), op) && Pairing(s, inst, op))
    && (op.refusal.Some? ==> op.stage == WriteAudit && op.out.None? && op.envs == [])
  }

  ghost predicate InstanceOk(s: System, inst: nat)
    requires inst in s.svcs
  {
    && inst < s.nextInst
    && |s.svcs[inst].ops| == MAX_OPS
    && (forall i: nat :: Live(s, inst, i) ==> SlotOk(s, inst, i))
    && CorrsDiffer(s.svcs[inst].ops)
  }

  /** No two slots carry one correlation id. */
  ghost predicate CorrsDiffer(ops: seq<Option<Op>>) {
    forall i, j :: 0 <= i < j < |ops| && ops[i].Some? && ops[j].Some? ==> ops[i].value.corr != ops[j].value.corr
  }

  ghost predicate InstancesOk(s: System) {
    forall inst :: inst in s.svcs ==> InstanceOk(s, inst)
  }

  ghost predicate OutputsOk(s: System) {
    && (forall i: nat :: i < |s.answers| ==> ReplyOk(s.store.log, s.answers[i].from, s.answers[i].reply))
    && (forall o :: o in s.orders ==> OrderOk(s.store.log, o.who, o.order))
  }

  ghost predicate Inv(s: System) {
    StoreOk(s.store) && NetOk(s) && InstancesOk(s) && OutputsOk(s)
  }
}
