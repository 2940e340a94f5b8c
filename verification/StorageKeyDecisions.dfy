/** What the pure decisions come to together: what any number of renewals of a
    release can still change and how long they can go on, and whose share each
    custodian is ever asked for. */
module StorageKeyDecisions {
  import opened Basics
  import opened StorageKey
  import opened Ledger
  import opened StorageKeyService
  import opened StorageKeyInvariants

  // ── Custody ────────────────────────────────────────────────────────────

  /** Evidence that shows a hardware key of at least the grant's tier. */
  predicate ShowsHardware(g: Binding, req: AttachRequest, key: Id) {
    && ShowsKey(req, key)
    && req.evidence.pkcs11 && req.evidence.tier >= PROCESS_HW && req.evidence.tier >= g.minTier
  }

  /** Evidence that verifies and is of the recipient's own session key. */
  predicate ShowsKey(req: AttachRequest, key: Id) {
    && req.evidence.Evidence? && req.evidence.magicOk && req.evidence.signatureOk
    && req.evidence.challenge == req.challenge && req.evidence.thumbprint == key
    && req.evidence.suiteOk && req.evidence.usageOk && !req.evidence.persisted
  }

  /** A hardware-bound grant is met by hardware only; another by that, by no
      evidence, or by evidence of lesser custody: never by false evidence. */
  lemma CustodyIsShown(g: Binding, req: AttachRequest, key: Id)
    ensures AdmitCustody(g, req, key).Ok? <==>
              ShowsHardware(g, req, key) || (g.custody != HardwareBound && (req.evidence.NoEvidence? || ShowsKey(req, key)))
    ensures AdmitCustody(g, req, key).Ok? ==>
              (AdmitCustody(g, req, key).value.custody == HardwareBound <==> ShowsHardware(g, req, key))
  {
  }

  // ── Releases ───────────────────────────────────────────────────────────

  /** The device is known, of the tenant, holds the key, and is trusted enough. */
  predicate DeviceMeets(g: Binding, d: DeviceFacts) { d.active && d.inTenant && d.keyBound && d.assurance >= g.minAssurance }

  /** The request is inside its window. */
  predicate InWindow(req: AttachRequest, nowMs: U64) { nowMs < req.expiryMs <= nowMs + MAX_REQUEST_WINDOW_MS }

  /** The granted device of a live grant, or the device an unused ticket for
      this epoch names. */
  predicate Entitled(issuer: Id, grant: Record, ticket: Option<Record>, req: AttachRequest, nowMs: U64) {
    if req.kind == Attachment then
      !grant.b.revoked && grant.names.device != 0 && grant.names.device == req.device && req.ticket == 0
    else
      && req.kind == Recovery && ticket.Some?
      && ticket.value.b.kind == RecoveryTicket && ticket.value.b.res == req.res && ticket.value.b.grantId == req.ticket
      && ticket.value.names.device == req.device && ticket.value.names.issuer == issuer
      && !ticket.value.b.consumed && (ticket.value.b.expiryMs == 0 || nowMs < ticket.value.b.expiryMs)
      && ticket.value.b.epoch == req.epoch
  }

  /** A release is decided if and only if everything it rests on holds at
      once; and it authorises that epoch of that set to that recipient, for
      sixty seconds and no longer than the grant's own lifetime allows. */
  lemma ReleaseIsDecided(issuer: Id, grant: Record, set_: Record, ticket: Option<Record>,
                         device: DeviceFacts, req: AttachRequest, nowMs: U64)
    ensures DecideRelease(issuer, grant, set_, ticket, device, req, nowMs).Ok? <==>
              && grant.b.kind == Grant && grant.b.res == req.res && grant.names.issuer == issuer
              && InWindow(req, nowMs) && req.fence != 0 && DeviceMeets(grant.b, device)
              && Entitled(issuer, grant, ticket, req, nowMs)
              && Admits(grant, req.epoch) && set_.b.kind == RecoverySet && set_.b.res == req.res && set_.b.epoch == req.epoch
              && 0 < req.lifetimeSecs <= grant.b.lifetimeSecs && req.recipient.Some? && req.proofOk
              && AdmitCustody(grant.b, req, req.recipient.value).Ok?
    ensures DecideRelease(issuer, grant, set_, ticket, device, req, nowMs).Ok? ==>
              var a := DecideRelease(issuer, grant, set_, ticket, device, req, nowMs).value;
              && a.kind == req.kind && a.res == req.res && a.epoch == req.epoch && a.fence == req.fence
              && a.setId == set_.b.setId && a.policy == set_.b.policy && a.aead == set_.b.aead
              && a.recipient == req.recipient.value && a.antiReplay == req.antiReplay && a.grantId == grant.b.grantId
              && a.issuedMs == nowMs && a.expiryMs == SatAdd(nowMs, 60_000) && a.nonce == req.challenge
              && (grant.b.custody == HardwareBound ==> a.custody == HardwareBound && a.provenTier >= grant.b.minTier)
  {
    if req.recipient.Some? { CustodyIsShown(grant.b, req, req.recipient.value); }
  }

  // ── Renewals ───────────────────────────────────────────────────────────

  /** A renewal is decided if and only if the attachment is this issuer's, is
      not over, is the head of its chain, and the live grant still names its
      device and admits its epoch; and it changes only what a renewal may. */
  lemma RenewalIsDecided(issuer: Id, signed: set<Record>, grant: Record, att: Record, chain: Chain,
                         device: DeviceFacts, req: AttachRequest, nowMs: U64)
    ensures DecideRenewal(issuer, signed, grant, Some(att), chain, device, req, nowMs).Ok? <==>
              && req.kind == Renewal && att in signed && AttachmentId(att) == Some(req.ticket) && att.names.issuer == issuer
              && att.b.res == req.res && att.b.purpose == ForAttachment
              && grant.b.kind == Grant && grant.b.res == req.res && grant.names.issuer == issuer
              && grant.b.grantId == att.b.grantId && grant.names.tenant == att.names.tenant
              && !grant.b.revoked && nowMs < AttachmentExpiry(att.b) && InWindow(req, nowMs) && DeviceMeets(grant.b, device)
              && grant.names.device != 0 && grant.names.device == req.device == att.names.device
              && req.recipient == Some(att.b.recipient) && req.fence != 0 && req.fence == att.b.fence
              && req.epoch == att.b.epoch && Admits(grant, req.epoch)
              && 0 < req.lifetimeSecs <= grant.b.lifetimeSecs && req.lifetimeSecs <= MAX_LIFETIME_SECS && req.proofOk
              && AdmitCustody(grant.b, req, att.b.recipient).Ok?
              && (if chain.Unrenewed? then att.b.kind == Attachment else chain.digest == DigestOf(att))
    ensures DecideRenewal(issuer, signed, grant, Some(att), chain, device, req, nowMs).Ok? ==>
              var d := DecideRenewal(issuer, signed, grant, Some(att), chain, device, req, nowMs).value;
              && d.previous == DigestOf(att) && d.attachmentId == req.ticket
              && IsRenewalOf(Record(d.b, Names(grant.names.issuer, grant.names.tenant, req.device),
                                    [IdItem(d.attachmentId), DigestItem(d.previous)]), att)
              && d.b.issuedMs == nowMs && d.b.expiryMs == SatAdd(nowMs, req.lifetimeSecs * 1000)
  {
  }

  // ── A release and its renewals ─────────────────────────────────────────

  /** What one renewal is decided on. */
  datatype Round = Round(signed: set<Record>, grant: Record, chain: Chain, device: DeviceFacts, req: AttachRequest, nowMs: U64)

  /** What one release is decided on. */
  datatype Opening = Opening(grant: Record, set_: Record, ticket: Option<Record>, device: DeviceFacts, req: AttachRequest, nowMs: U64)

  /** The record the release decided on `f` is handed out as. */
  ghost predicate ReleasedBy(issuer: Id, f: Opening, rec: Record) {
    && f.req.kind == Attachment && |rec.items| == 2
    && DecideRelease(issuer, f.grant, f.set_, f.ticket, f.device, f.req, f.nowMs) == Ok(rec.b)
    && rec.names == Names(f.grant.names.issuer, f.grant.names.tenant, f.req.device)
  }

  /** The record the renewal of `att` decided on `r` is handed out as. */
  ghost predicate RenewedBy(issuer: Id, att: Record, r: Round, rec: Record) {
    var d := DecideRenewal(issuer, r.signed, r.grant, Some(att), r.chain, r.device, r.req, r.nowMs);
    && d.Ok?
    && rec == Record(d.value.b, Names(r.grant.names.issuer, r.grant.names.tenant, r.req.device),
                     [IdItem(d.value.attachmentId), DigestItem(d.value.previous)])
  }

  /** A release, and renewals each of the last record. */
  ghost predicate Lease(issuer: Id, f: Opening, recs: seq<Record>, rounds: seq<Round>) {
    && |recs| == |rounds| + 1 && ReleasedBy(issuer, f, recs[0])
    && forall i: nat :: i < |rounds| ==> Link(issuer, recs, rounds, i)
  }

  ghost predicate Link(issuer: Id, recs: seq<Record>, rounds: seq<Round>, i: nat)
    requires i < |rounds| && i + 1 < |recs|
  {
    RenewedBy(issuer, recs[i], rounds[i], recs[i + 1])
  }

  lemma RenewalKeeps(issuer: Id, att: Record, r: Round, rec: Record)
    requires RenewedBy(issuer, att, r, rec)
    ensures SameAttachment(att, rec) && rec.b.kind == Renewal && r.nowMs < AttachmentExpiry(att.b)
    ensures rec.b.issuedMs == r.nowMs && !r.grant.b.revoked && r.grant.names.device == rec.names.device
    ensures AttachmentExpiry(rec.b) <= r.nowMs + MAX_LIFETIME_SECS * 1000
    ensures AttachmentExpiry(rec.b) <= r.nowMs + r.grant.b.lifetimeSecs * 1000
    ensures r.grant.b.custody == HardwareBound ==> rec.b.custody == HardwareBound && rec.b.provenTier >= r.grant.b.minTier
  {
    RenewalIsDecided(issuer, r.signed, r.grant, att, r.chain, r.device, r.req, r.nowMs);
    CustodyIsShown(r.grant.b, r.req, att.b.recipient);
  }

  lemma ReleaseStarts(issuer: Id, f: Opening, rec: Record)
    requires ReleasedBy(issuer, f, rec)
    ensures rec.b.kind == Attachment && rec.b.res == f.req.res && rec.b.epoch == f.req.epoch && rec.b.fence == f.req.fence
    ensures Some(rec.b.recipient) == f.req.recipient && rec.b.setId == f.set_.b.setId && rec.b.grantId == f.grant.b.grantId
    ensures AttachmentId(rec) == Some(f.req.antiReplay) && rec.names.device == f.req.device == f.grant.names.device
  {
    ReleaseIsDecided(issuer, f.grant, f.set_, f.ticket, f.device, f.req, f.nowMs);
  }

  /** However often a release is renewed, and whatever the grant has become
      meanwhile, every record still is of the resource, epoch, fence, key and
      device first asked for, of that set and that grant, under the first
      request's anti-replay id; and there is no gap: each was decided while
      the one before it still ran. */
  lemma {:induction false} LeaseNeverWidens(issuer: Id, f: Opening, recs: seq<Record>, rounds: seq<Round>, k: nat)
    requires Lease(issuer, f, recs, rounds) && k < |recs|
    ensures SameAttachment(recs[0], recs[k])
    ensures recs[k].b.res == f.req.res && recs[k].b.epoch == f.req.epoch && recs[k].b.fence == f.req.fence
    ensures Some(recs[k].b.recipient) == f.req.recipient && recs[k].names.device == f.req.device
    ensures recs[k].b.setId == f.set_.b.setId && recs[k].b.grantId == f.grant.b.grantId
    ensures AttachmentId(recs[k]) == Some(f.req.antiReplay)
    ensures k > 0 ==> recs[k].b.kind == Renewal && recs[k].b.issuedMs < AttachmentExpiry(recs[k - 1].b)
  {
    hide ReleasedBy, RenewedBy, AttachmentExpiry;
    ReleaseStarts(issuer, f, recs[0]);
    if k > 0 {
      LeaseNeverWidens(issuer, f, recs, rounds, k - 1);
      assert Link(issuer, recs, rounds, k - 1);
      RenewalKeeps(issuer, recs[k - 1], rounds[k - 1], recs[k]);
    }
  }

  /** A grant that no longer lets a device renew: revoked, or another's. */
  predicate ShutsOut(grant: Record, device: Id) { grant.b.revoked || grant.names.device != device }

  /** Once every grant read shuts the device out, nothing it holds runs for
      more than a week, however it is renewed. */
  lemma RevokedLeaseEnds(issuer: Id, f: Opening, recs: seq<Record>, rounds: seq<Round>, at: U64, k: nat)
    requires Lease(issuer, f, recs, rounds) && 0 < k < |recs|
    requires forall i :: 0 <= i < |rounds| && rounds[i].nowMs >= at ==> ShutsOut(rounds[i].grant, f.req.device)
    ensures recs[k].b.issuedMs < at && AttachmentExpiry(recs[k].b) < at + MAX_LIFETIME_SECS * 1000
  {
    hide ReleasedBy, RenewedBy, AttachmentExpiry;
    LeaseNeverWidens(issuer, f, recs, rounds, k);
    assert Link(issuer, recs, rounds, k - 1);
    RenewalKeeps(issuer, recs[k - 1], rounds[k - 1], recs[k]);
  }

  /** A lease under hardware-bound grants never leaves hardware, nor falls
      below the tier each of them asks for. */
  lemma LeaseStaysInHardware(issuer: Id, f: Opening, recs: seq<Record>, rounds: seq<Round>, k: nat)
    requires Lease(issuer, f, recs, rounds) && k < |recs|
    ensures var g := if k == 0 then f.grant.b else rounds[k - 1].grant.b;
            g.custody == HardwareBound ==> recs[k].b.custody == HardwareBound && recs[k].b.provenTier >= g.minTier
  {
    if k == 0 {
      hide RenewedBy, AdmitCustody;
      ReleaseIsDecided(issuer, f.grant, f.set_, f.ticket, f.device, f.req, f.nowMs);
    } else {
      hide ReleasedBy, RenewedBy;
      assert Link(issuer, recs, rounds, k - 1);
      RenewalKeeps(issuer, recs[k - 1], rounds[k - 1], recs[k]);
    }
  }

  // ── Each custodian its own share ───────────────────────────────────────

  /** A creation record of three custodian keys, as creating a resource or
      rotating its key makes one. */
  ghost predicate CreatedFor(creation: Record, keys: seq<Id>, h: Host, op: Op, held: Record) {
    if op.fields.CreateFields? then
      StartCreate(h, op).verdict.Next? && StartCreate(h, op).verdict.op.out == Some(creation) && keys == op.fields.keys
    else
      && op.fields.NewKeys? && keys == op.fields.keys
      && RotateKey(h, op, held).verdict.Next? && RotateKey(h, op, held).verdict.op.out == Some(creation)
  }

  lemma CreationNamesKeys(creation: Record, keys: seq<Id>, h: Host, op: Op, held: Record)
    requires CreatedFor(creation, keys, h, op, held)
    ensures creation.b.kind == Creation && KeysOk(keys)
    ensures creation.items == [KeyItem(keys[0]), KeyItem(keys[1]), KeyItem(keys[2])]
  {
  }

  /** From the creation of an epoch's set, through its recording, to an order
      under it: a custodian is sent the one envelope that holds its own share,
      sealed to the key it was created with; no two custodians share a key or
      an index; and only an envelope of that same index is taken back. */
  lemma EachCustodianItsShare(creation: Record, keys: seq<Id>, h0: Host, op0: Op, held: Record,
                              h1: Host, op1: Op, rec: Record, h2: Host, op2: Op, etag: Etag, c: nat, order: Order)
    requires CreatedFor(creation, keys, h0, op0, held)
    requires RecordSet(h1, op1, creation).verdict.Next? && RecordSet(h1, op1, creation).verdict.op.out == Some(rec)
    requires op2.set_ == Held(rec, etag) && order in SendOrder(h2, op2, c).orders
    ensures c <= 2 && order.RewrapOrder? && order.custodian == c && order.envelope.Envelope?
    ensures order.envelope.index == c + 1 && order.envelope.recipient == keys[c]
    ensures order.envelope.setId == creation.b.setId && order.envelope.epoch == creation.b.epoch
    ensures order.envelope.resource == creation.b.res.id && order.envelope.purpose == ForRecovery
    ensures forall d :: 0 <= d < 3 && d != c ==> keys[d] != keys[c]
    ensures forall env :: CheckAnswer(op2, c, true, env).Passed? ==> env.Envelope? && env.index == order.envelope.index
  {
    CreationNamesKeys(creation, keys, h0, op0, held);
    hide CreatedFor;
    var envs := op1.fields.envs.value;
    CustodySetIsWhole(creation, envs);
    hide CheckCustodySet;
    assert rec.items == [EnvelopeItem(envs[0]), EnvelopeItem(envs[1]), EnvelopeItem(envs[2])];
    assert c < 3 && order == RewrapOrder(c, op2.out.value, op2.fields.req.recipient.value, envs[c]);
    assert creation.items[c] == KeyItem(envs[c].recipient);
  }

  // ── Envelopes ──────────────────────────────────────────────────────────

  /** An envelope of this very authorisation. */
  predicate ReleasedUnder(e: Envelope, auth: Binding) {
    && Readable(e) && e.purpose == ForAttachment && e.aead == auth.aead && e.setId == auth.setId
    && e.resource == auth.res.id && e.epoch == auth.epoch && e.fence == auth.fence && e.expiryMs == auth.expiryMs
    && e.policy == auth.policy && e.recipient == auth.recipient
  }

  /** A bundle is written if and only if both envelopes were released under
      the authorisation and carry different shares; it holds the two, the
      lower index first, whichever way round they came. */
  lemma BundleIsOfTwo(a: Envelope, b: Envelope, auth: Binding)
    ensures WriteBundle(a, b, auth).Ok? <==> ReleasedUnder(a, auth) && ReleasedUnder(b, auth) && a.index != b.index
    ensures WriteBundle(a, b, auth).Ok? ==>
              var w := WriteBundle(a, b, auth).value;
              |w| == 2 && multiset(w) == multiset{a, b} && w[0].index < w[1].index && WriteBundle(b, a, auth) == Ok(w)
  {
  }

  /** A custody set is accepted if and only if its three envelopes are the
      three shares in order, sealed to the three keys the creation names. */
  lemma CustodySetIsWhole(creation: Record, envs: seq<Envelope>)
    requires |envs| == 3
    ensures CheckCustodySet(creation, envs).Passed? <==>
              && creation.b.kind == Creation && |creation.items| == 3
              && forall i :: 0 <= i < 3 ==>
                   && Readable(envs[i]) && envs[i].purpose == ForRecovery && envs[i].index == i + 1
                   && envs[i].aead == creation.b.aead && envs[i].setId == creation.b.setId
                   && envs[i].resource == creation.b.res.id && envs[i].epoch == creation.b.epoch
                   && envs[i].fence == 0 && envs[i].expiryMs == 0 && envs[i].policy == creation.b.policy
                   && creation.items[i] == KeyItem(envs[i].recipient)
  {
    if CheckCustodySet(creation, envs).Passed? {
      assert CheckCustodyEnvelope(creation, envs, 0).Passed? && CheckCustodyEnvelope(creation, envs, 1).Passed?;
      assert CheckCustodyEnvelope(creation, envs, 2).Passed?;
    }
  }
}
