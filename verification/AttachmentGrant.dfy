/** Attachment authorisation: what a producer publishes, what a consumer is
    granted under it, and when either is still good. */
module AttachmentGrant {
  import opened Basics

  type Id = nat

  datatype Kind = Publication | Grant | OtherKind

  const MAX_TENANTS := 8
  const MAX_DOMAINS := 8
  const MAX_PUBLICATION_MS := 30 * 24 * 3600 * 1000
  const MAX_GRANT_MS := 24 * 3600 * 1000
  const SKEW_MS := 5_000

  datatype Refusal =
    | Malformed | NotAuthenticated | Wildcard | TenantNotAccepted | DomainNotAccepted
    | ActorNotPermitted | WrongService | QuotaExceeded | Expired | Revoked | BadSignature
    | UnknownKey | NoIssuerKey | LedgerUnavailable | Conflict | NoClock | Busy
    | GenerationNotAdvanced | WindowInvalid | ForeignProducer | WrongKind

  datatype Class = Workload | ServiceClass | HostClass | Operator | OtherClass

  datatype Actor = Actor(class_: Class, id: Id, domain: Id, local: bool)

  datatype Quotas = Quotas(connections: U32, bytesPerSec: U32, flows: U32, mirrorCredits: U32) {
    /** Every quota nonzero but mirror credits, and none above the ceiling. */
    predicate Within(ceiling: Quotas) {
      && connections != 0 && bytesPerSec != 0 && flows != 0
      && connections <= ceiling.connections && bytesPerSec <= ceiling.bytesPerSec
      && flows <= ceiling.flows && mirrorCredits <= ceiling.mirrorCredits
    }
  }

  /** Identifiers are opaque, 0 the all-zero one; a digest is of what it names. */
  datatype Attachment = Attachment(
    kind: Kind, direction: nat, disclosure: nat, actorClass: Class, quotas: Quotas,
    issuedMs: U64, expiryMs: U64, revocationGeneration: U64, attachmentGeneration: U64,
    producerTenant: Id, service: Id, consumerTenant: Id, attachmentId: Id,
    actor: Id, actorDomain: Id, publication: Digest, tenants: seq<Id>, domains: seq<Id>)

  /** `Unread` is a digest as it stands in a record that was read. */
  datatype Digest = NoDigest | DigestOf(record: Attachment) | Unread(digest: nat)

  // ── Well-formed records ────────────────────────────────────────────────

  predicate Repeats(s: seq<Id>) { exists i, j :: 0 <= i < j < |s| && s[i] == s[j] }

  /** `check_sets`: nonempty, no wildcard, no repeats. */
  function CheckSets(a: Attachment): Check<Refusal> {
    if a.tenants == [] || a.domains == [] then Refused(Wildcard)
    else if 0 in a.tenants then Refused(Wildcard)
    else if Repeats(a.tenants) || Repeats(a.domains) then Refused(Malformed)
    else Passed
  }

  function Ceiling(kind: Kind): nat { if kind == Publication then MAX_PUBLICATION_MS else MAX_GRANT_MS }

  /** `check`: a record this profile issues. */
  function CheckRecord(a: Attachment): Check<Refusal> {
    if !(1 <= a.direction <= 2) || a.disclosure > 2 then Refused(Malformed)
    else if CheckSets(a).Refused? then CheckSets(a)
    else if a.kind == OtherKind then Refused(Malformed)
    else if a.expiryMs <= a.issuedMs || a.expiryMs - a.issuedMs > Ceiling(a.kind) then Refused(WindowInvalid)
    else if a.kind == Publication then
      if a.consumerTenant != 0 || a.attachmentId != 0 || a.attachmentGeneration != 0 || a.publication != NoDigest
      then Refused(Malformed) else Passed
    else if a.attachmentGeneration == 0 || a.attachmentId == 0 then Refused(Malformed)
    else if a.consumerTenant !in a.tenants then Refused(TenantNotAccepted)
    else if a.actorDomain !in a.domains then Refused(DomainNotAccepted)
    else Passed
  }

  /** The checks' loops over the sets. */
  method FindRepeat(s: seq<Id>) returns (repeats: bool)
    ensures repeats == Repeats(s)
  {
    for i := 0 to |s|
      invariant forall x, y :: 0 <= x < y < |s| && x < i ==> s[x] != s[y]
    {
      for j := i + 1 to |s|
        invariant forall y :: i < y < j ==> s[i] != s[y]
      {
        if s[i] == s[j] {
          return true;
        }
      }
    }
    return false;
  }

  /** What verifying a record's signature under the key it names gives. */
  datatype Signature = Good | NoSuchKey | Bad

  /** `Record::verify` at `nowMs`, 0 being no clock. */
  function VerifyRecord(a: Attachment, signature: Signature, nowMs: U64): Check<Refusal> {
    if CheckRecord(a).Refused? then CheckRecord(a)
    else if signature == NoSuchKey then Refused(UnknownKey)
    else if signature == Bad then Refused(BadSignature)
    else if nowMs == 0 then Refused(NoClock)
    else if nowMs >= a.expiryMs then Refused(Expired)
    else if a.issuedMs > SatAdd(nowMs, SKEW_MS) then Refused(WindowInvalid)
    else Passed
  }

  // ── Deciding ───────────────────────────────────────────────────────────

  function Clamp(ttl: U64, most: nat): nat {
    if ttl < 1 then 1 else if ttl > most then most else ttl
  }

  function Min(a: U64, b: U64): U64 { if a < b then a else b }

  /** A publication request; a domain name that names no domain is refused as
      its own reason says. */
  datatype Publish = Publish(
    producerTenant: Id, service: Id, direction: nat, disclosure: nat, ceilings: Quotas, ttlMs: U64,
    tenants: seq<Id>, domains: seq<Result<Id, Refusal>>)

  function DomainsOf(ds: seq<Result<Id, Refusal>>): Result<seq<Id>, Refusal> {
    if ds == [] then Ok([])
    else
      var first :- ds[0];
      var rest :- DomainsOf(ds[1..]);
      Ok([first] + rest)
  }

  /** `decide_publish`. */
  function DecidePublish(req: Publish, actor: Option<Actor>, generation: U64, nowMs: U64): Result<Attachment, Refusal> {
    var clock := Need(nowMs != 0, NoClock);
    :- clock;
    :- Need(actor.Some?, NotAuthenticated);
    var caller := actor.value;
    :- Need(caller.class_ == Workload || caller.class_ == ServiceClass || caller.class_ == Operator, ActorNotPermitted);
    :- Need(caller.local, ForeignProducer);
    :- Need(req.producerTenant != 0 && req.service != 0, Malformed);
    var domains :- DomainsOf(req.domains);
    :- Need(req.ceilings.Within(req.ceilings), QuotaExceeded);
    var a := Attachment(
      Publication, req.direction, req.disclosure, caller.class_, req.ceilings,
      nowMs, SatAdd(nowMs, Clamp(req.ttlMs, MAX_PUBLICATION_MS)), generation, 0,
      req.producerTenant, req.service, 0, 0, caller.id, caller.domain, NoDigest, req.tenants, domains);
    :- CheckRecord(a);
    Ok(a)
  }

  /** A consumer's request, but for the publication it carries. */
  datatype Request = Request(
    producerTenant: Id, service: Id, consumerTenant: Id, attachmentGeneration: U64, quotas: Quotas, ttlMs: U64)

  /** The grant a request would be given. */
  function GrantOf(req: Request, p: Attachment, caller: Actor, generation: U64, id: Id, nowMs: U64): Attachment {
    p.(kind := Grant, actorClass := caller.class_, actor := caller.id, actorDomain := caller.domain, quotas := req.quotas,
       issuedMs := nowMs, expiryMs := Min(SatAdd(nowMs, Clamp(req.ttlMs, MAX_GRANT_MS)), p.expiryMs),
       revocationGeneration := generation, attachmentGeneration := req.attachmentGeneration,
       consumerTenant := req.consumerTenant, attachmentId := id)
  }

  /** `decide_request`. */
  function DecideRequest(req: Request, p: Attachment, actor: Option<Actor>, generation: U64, id: Id, nowMs: U64)
    : Result<Attachment, Refusal>
  {
    var clock := Need(nowMs != 0, NoClock);
    :- clock;
    :- Need(actor.Some?, NotAuthenticated);
    var caller := actor.value;
    :- Need(caller.class_ == Workload || caller.class_ == Operator, ActorNotPermitted);
    :- Need(p.kind == Publication && p.producerTenant == req.producerTenant && p.service == req.service, WrongService);
    :- Need(p.revocationGeneration == generation, Revoked);
    :- Need(nowMs < p.expiryMs, Expired);
    :- Need(req.consumerTenant != 0, Wildcard);
    :- Need(req.consumerTenant in p.tenants, TenantNotAccepted);
    :- Need(caller.domain in p.domains, DomainNotAccepted);
    :- Need(req.attachmentGeneration != 0, Malformed);
    :- Need(req.quotas.Within(p.quotas), QuotaExceeded);
    var g := GrantOf(req, p, caller, generation, id, nowMs);
    :- CheckRecord(g);
    Ok(g)
  }

  // ── What a decision gives ──────────────────────────────────────────────

  /** Who may be granted what, in a publication's own terms. */
  ghost predicate MayAttach(req: Request, p: Attachment, caller: Actor, generation: U64, nowMs: U64) {
    && (caller.class_ == Workload || caller.class_ == Operator)
    && p.kind == Publication && p.producerTenant == req.producerTenant && p.service == req.service
    && p.revocationGeneration == generation && 0 < nowMs < p.expiryMs
    && req.consumerTenant in p.tenants && caller.domain in p.domains
    && req.attachmentGeneration != 0 && req.quotas.Within(p.quotas)
  }

  /** A request under a well-formed publication is granted if and only if it
      may attach and is given a nonzero id; and the grant is the
      publication's, narrowed to the request: within its quotas, sets and
      expiry, for a day at most. */
  lemma GrantIsNarrower(req: Request, p: Attachment, caller: Actor, generation: U64, id: Id, nowMs: U64)
    requires CheckRecord(p).Passed?
    ensures DecideRequest(req, p, Some(caller), generation, id, nowMs).Ok? <==>
              MayAttach(req, p, caller, generation, nowMs) && id != 0
    ensures var r := DecideRequest(req, p, Some(caller), generation, id, nowMs);
            r.Ok? ==>
              var g := r.value;
              && g.kind == Grant && g.quotas == req.quotas && g.quotas.Within(p.quotas)
              && g.tenants == p.tenants && g.domains == p.domains
              && g.consumerTenant == req.consumerTenant && g.consumerTenant in p.tenants
              && g.actorDomain == caller.domain && g.actorDomain in p.domains
              && g.issuedMs == nowMs < g.expiryMs <= p.expiryMs && g.expiryMs - nowMs <= MAX_GRANT_MS
              && g.revocationGeneration == generation == p.revocationGeneration
              && g.producerTenant == p.producerTenant && g.service == p.service && g.attachmentId == id
  {
  }

  /** A grant verifies from five seconds before it was issued until it
      expires, and no longer. */
  lemma GrantVerifies(req: Request, p: Attachment, actor: Option<Actor>, generation: U64, id: Id, nowMs: U64, atMs: U64)
    requires DecideRequest(req, p, actor, generation, id, nowMs).Ok?
    ensures var g := DecideRequest(req, p, actor, generation, id, nowMs).value;
            forall digest :: VerifyRecord(g.(publication := digest), Good, atMs).Passed? <==>
              0 < atMs < g.expiryMs && nowMs <= atMs + SKEW_MS
  {
  }

  lemma PublicationVerifies(req: Publish, actor: Option<Actor>, generation: U64, nowMs: U64, later: U64, atMs: U64)
    requires DecidePublish(req, actor, generation, nowMs).Ok?
    ensures var p := DecidePublish(req, actor, generation, nowMs).value.(revocationGeneration := later);
            VerifyRecord(p, Good, atMs).Passed? <==> 0 < atMs < p.expiryMs && nowMs <= atMs + SKEW_MS
  {
  }
}
