/** The attachment-authorisation service: each act is decided, reads the
    service's revocation generation once, and is decided again by it. */
module AttachmentService {
  import opened Basics
  import opened AttachmentGrant

  const MAX_OPS := 4
  const STAGE_TIMEOUT_MS := 10_000

  datatype Code = PublishOp | RequestOp | RevokeOp | UnknownOp

  /** The ledger key of a service's revocation generation. */
  datatype Key = Key(producerTenant: Id, service: Id)

  /** What stands there: a generation, or bytes that are none. */
  datatype Stored = Generation(g: U64) | Garbage

  datatype Ask = Get(key: Key) | PutIfAbsent(key: Key, g: U64) | CompareAndSwap(key: Key, etag: nat, g: U64)

  datatype Status = StOk | StNotFound | StConflict | StOther

  datatype Pending =
    | PendingNone
    | PendingGrant(publication: Attachment, consumerTenant: Id, attachmentGeneration: U64,
                   quotas: Quotas, ttlMs: U64, actor: Actor)
    | PendingPublication(a: Attachment)
    | PendingRevoke(target: U64)

  datatype Stage = GetGeneration | SetGeneration

  datatype Op = Op(code: Code, stage: Stage, caller: nat, corr: nat, deadlineMs: U64,
                   producerTenant: Id, service: Id, pending: Pending, generation: U64)
  {
    function OnKey(): Key { Key(producerTenant, service) }
  }

  datatype Body =
    | PublishBody(publish: Publish)
    | RequestBody(req: Request, publication: Attachment, signature: Signature)
    | RevokeBody(producerTenant: Id, service: Id, target: U64)
    | BadBody

  /** What one call gets from its host. */
  datatype Host = Host(nowMs: U64, keyLoaded: bool, signOk: bool, random: Option<Id>, actor: Option<Actor>,
                       ledgerUp: bool)

  datatype Reply = Reply(caller: nat, code: Code, refusal: Option<Refusal>, record: Option<Attachment>, generation: U64)

  /** Ended with an answer, or waiting for the ledger. */
  datatype Step = Ended(result: Result<Option<Attachment>, Refusal>, generation: U64) | Waiting(op: Op, ask: Ask)

  // ── Starting ───────────────────────────────────────────────────────────

  const EMPTY := Op(UnknownOp, GetGeneration, 0, 0, 0, 0, 0, PendingNone, 0)

  function StartPublish(h: Host, req: Publish): Result<Op, Refusal> {
    var a :- DecidePublish(req, h.actor, 0, h.nowMs);
    Ok(EMPTY.(producerTenant := a.producerTenant, service := a.service, pending := PendingPublication(a)))
  }

  function StartRequest(h: Host, req: Request, p: Attachment, signature: Signature): Result<Op, Refusal> {
    var verified := VerifyRecord(p, signature, h.nowMs);
    :- verified;
    :- Need(p.kind == Publication, Malformed);
    :- Need(h.actor.Some?, NotAuthenticated);
    var decided :- DecideRequest(req, p, h.actor, p.revocationGeneration, 1, h.nowMs);
    Ok(EMPTY.(producerTenant := req.producerTenant, service := req.service,
              pending := PendingGrant(p, req.consumerTenant, req.attachmentGeneration, req.quotas, req.ttlMs, h.actor.value)))
  }

  function StartRevoke(h: Host, producerTenant: Id, service: Id, target: U64): Result<Op, Refusal> {
    var known := Need(h.actor.Some?, NotAuthenticated);
    :- known;
    var c := h.actor.value.class_;
    :- Need(c == Workload || c == ServiceClass || c == Operator, ActorNotPermitted);
    :- Need(h.actor.value.local, ForeignProducer);
    Ok(EMPTY.(producerTenant := producerTenant, service := service, pending := PendingRevoke(target)))
  }

  function Start(h: Host, code: Code, body: Body): Result<Op, Refusal> {
    match (code, body)
    case (PublishOp, PublishBody(req)) => StartPublish(h, req)
    case (RequestOp, RequestBody(req, p, signature)) => StartRequest(h, req, p, signature)
    case (RevokeOp, RevokeBody(t, s, target)) => StartRevoke(h, t, s, target)
    case _ => Err(Malformed)
  }

  // ── Advancing ──────────────────────────────────────────────────────────

  /** `sign`. */
  function Sign(h: Host, a: Attachment): Result<Option<Attachment>, Refusal> {
    if h.signOk then Ok(Some(a)) else Err(NoIssuerKey)
  }

  /** The generation is read: the act is decided by it. */
  function WithGeneration(h: Host, op: Op, current: U64, found: bool, etag: nat): Step {
    match op.pending
    case PendingPublication(a) => Ended(Sign(h, a.(revocationGeneration := current)), current)
    case PendingGrant(p, tenant, generation, quotas, ttl, actor) => (
      if h.random.None? then Ended(Err(Busy), current)
      else
        match DecideRequest(Request(p.producerTenant, p.service, tenant, generation, quotas, ttl), p, Some(actor), current,
                            h.random.value, h.nowMs)
        case Err(r) => Ended(Err(r), current)
        case Ok(g) => Ended(Sign(h, g.(publication := DigestOf(p))), current))
    case PendingRevoke(target) =>
      if target <= current then Ended(Err(GenerationNotAdvanced), current)
      else if !h.ledgerUp then Ended(Err(LedgerUnavailable), current)
      else Waiting(op.(stage := SetGeneration, generation := target),
                   if found then CompareAndSwap(op.OnKey(), etag, target) else PutIfAbsent(op.OnKey(), target))
    case PendingNone => Ended(Err(Malformed), current)
  }

  /** `advance`. */
  function Advance(h: Host, op: Op, status: Status, etag: nat, value: Stored): Step {
    match op.stage
    case GetGeneration => (
      match status
      case StOk => if value.Generation? then WithGeneration(h, op, value.g, true, etag) else Ended(Err(Malformed), op.generation)
      case StNotFound => WithGeneration(h, op, 0, false, etag)
      case _ => Ended(Err(LedgerUnavailable), op.generation))
    case SetGeneration =>
      match status
      case StOk => Ended(Ok(None), op.generation)
      case StConflict => Ended(Err(Conflict), op.generation)
      case _ => Ended(Err(LedgerUnavailable), op.generation)
  }

  // ── The service ────────────────────────────────────────────────────────

  datatype Svc = Svc(ops: seq<Option<Op>>, nextCorr: nat)

  function NewSvc(): Svc { Svc(seq(MAX_OPS, _ => None), 1) }

  function FreeSlot(ops: seq<Option<Op>>): (i: nat)
    ensures i <= |ops| && (i < |ops| ==> ops[i].None?) && forall j :: 0 <= j < i ==> ops[j].Some?
  {
    if ops == [] || ops[0].None? then 0 else 1 + FreeSlot(ops[1..])
  }

  predicate Carries(o: Option<Op>, corr: nat) { o.Some? && o.value.corr == corr }

  function SlotOf(ops: seq<Option<Op>>, corr: nat): (i: nat)
    ensures i <= |ops| && (i < |ops| ==> Carries(ops[i], corr)) && forall j :: 0 <= j < i ==> !Carries(ops[j], corr)
  {
    if ops == [] || Carries(ops[0], corr) then 0 else 1 + SlotOf(ops[1..], corr)
  }

  datatype Outcome = Outcome(replies: seq<Reply>, asks: seq<(nat, Ask)>)

  function Say(r: Reply): Outcome { Outcome([r], []) }

  function Refused_(caller: nat, code: Code, r: Refusal): Reply { Reply(caller, code, Some(r), None, 0) }

  /** `on_request`. */
  function OnRequest(s: Svc, h: Host, caller: nat, code: Code, body: Body): (Svc, Outcome) {
    if !h.keyLoaded then (s, Say(Refused_(caller, code, NoIssuerKey)))
    else if h.nowMs == 0 then (s, Say(Refused_(caller, code, NoClock)))
    else
      match Start(h, code, body)
      case Err(r) => (s, Say(Refused_(caller, code, r)))
      case Ok(started) =>
        var i := FreeSlot(s.ops);
        if i == |s.ops| then (s, Say(Refused_(caller, code, Busy)))
        else
          var op := started.(code := code, caller := caller, corr := s.nextCorr,
                             deadlineMs := SatAdd(h.nowMs, STAGE_TIMEOUT_MS), stage := GetGeneration);
          if h.ledgerUp then (Svc(s.ops[i := Some(op)], s.nextCorr + 1), Outcome([], [(op.corr, Get(op.OnKey()))]))
          else (s.(nextCorr := s.nextCorr + 1), Say(Refused_(caller, code, LedgerUnavailable)))
  }

  /** `finish`. */
  function AnswerTo(op: Op, result: Result<Option<Attachment>, Refusal>, generation: U64): Reply {
    match result
    case Ok(record) => Reply(op.caller, op.code, None, record, generation)
    case Err(r) => Reply(op.caller, op.code, Some(r), None, generation)
  }

  /** `on_ledger`. */
  function OnLedger(s: Svc, h: Host, corr: nat, status: Status, etag: nat, value: Stored): (Svc, Outcome) {
    var i := SlotOf(s.ops, corr);
    if i == |s.ops| then (s, Outcome([], []))
    else
      match Advance(h, s.ops[i].value, status, etag, value)
      case Waiting(op, ask) => (s.(ops := s.ops[i := Some(op)]), Outcome([], [(op.corr, ask)]))
      case Ended(result, generation) =>
        (s.(ops := s.ops[i := None]), Say(AnswerTo(s.ops[i].value, result, generation)))
  }

  predicate IsLate(o: Option<Op>, nowMs: U64) { o.Some? && nowMs != 0 && nowMs > o.value.deadlineMs }

  /** The answers to the late among the first `n` slots, in order. */
  function LateReplies(ops: seq<Option<Op>>, nowMs: U64, n: nat): seq<Reply>
    requires n <= |ops|
  {
    if n == 0 then []
    else if IsLate(ops[n - 1], nowMs) then
      LateReplies(ops, nowMs, n - 1) + [AnswerTo(ops[n - 1].value, Err(LedgerUnavailable), ops[n - 1].value.generation)]
    else LateReplies(ops, nowMs, n - 1)
  }

  function OnTime(ops: seq<Option<Op>>, nowMs: U64): seq<Option<Op>> {
    seq(|ops|, i requires 0 <= i < |ops| => if IsLate(ops[i], nowMs) then None else ops[i])
  }

  /** `tick`: every late operation ends. */
  function Tick(s: Svc, h: Host): (Svc, Outcome) {
    (s.(ops := OnTime(s.ops, h.nowMs)), Outcome(LateReplies(s.ops, h.nowMs, |s.ops|), []))
  }

  // ── As it runs ─────────────────────────────────────────────────────────

  class Service {
    const ops: array<Option<Op>>
    var nextCorr: nat

    ghost function View(): (s: Svc)
      reads this, ops
    {
      Svc(ops[..], nextCorr)
    }

    constructor ()
      ensures fresh(ops) && View() == NewSvc()
    {
      ops := new Option<Op>[MAX_OPS](_ => None);
      nextCorr := 1;
    }

    method OnRequestFrom(h: Host, caller: nat, code: Code, body: Body) returns (r: Outcome)
      modifies this`nextCorr, ops
      ensures (View(), r) == OnRequest(old(View()), h, caller, code, body)
    {
      if !h.keyLoaded {
        return Say(Refused_(caller, code, NoIssuerKey));
      }
      if h.nowMs == 0 {
        return Say(Refused_(caller, code, NoClock));
      }
      var started := Start(h, code, body);
      if started.Err? {
        return Say(Refused_(caller, code, started.error));
      }
      var i := 0;
      while i < ops.Length && ops[i].Some?
        invariant i <= ops.Length && forall j :: 0 <= j < i ==> ops[j].Some?
      {
        i := i + 1;
      }
      assert i == FreeSlot(ops[..]);
      if i == ops.Length {
        return Say(Refused_(caller, code, Busy));
      }
      var op := started.value.(code := code, caller := caller, corr := nextCorr,
                               deadlineMs := SatAdd(h.nowMs, STAGE_TIMEOUT_MS), stage := GetGeneration);
      nextCorr := nextCorr + 1;
      if !h.ledgerUp {
        return Say(Refused_(caller, code, LedgerUnavailable));
      }
      ops[i] := Some(op);
      return Outcome([], [(op.corr, Get(op.OnKey()))]);
    }

    method OnLedgerReply(h: Host, corr: nat, status: Status, etag: nat, value: Stored) returns (r: Outcome)
      modifies ops
      ensures (View(), r) == OnLedger(old(View()), h, corr, status, etag, value)
    {
      var i := 0;
      while i < ops.Length && !Carries(ops[i], corr)
        invariant i <= ops.Length && forall j :: 0 <= j < i ==> !Carries(ops[j], corr)
      {
        i := i + 1;
      }
      assert i == SlotOf(ops[..], corr);
      if i == ops.Length {
        return Outcome([], []);
      }
      var op := ops[i].value;
      match Advance(h, op, status, etag, value) {
        case Waiting(next, ask) =>
          ops[i] := Some(next);
          return Outcome([], [(next.corr, ask)]);
        case Ended(result, generation) =>
          ops[i] := None;
          return Say(AnswerTo(op, result, generation));
      }
    }

    method OnTick(h: Host) returns (r: Outcome)
      modifies ops
      ensures (View(), r) == Tick(old(View()), h)
    {
      ghost var before := ops[..];
      var replies: seq<Reply> := [];
      for i := 0 to ops.Length
        invariant replies == LateReplies(before, h.nowMs, i)
        invariant forall j :: 0 <= j < i ==> ops[j] == OnTime(before, h.nowMs)[j]
        invariant forall j :: i <= j < ops.Length ==> ops[j] == before[j]
      {
        if ops[i].Some? && h.nowMs != 0 && h.nowMs > ops[i].value.deadlineMs {
          replies := replies + [AnswerTo(ops[i].value, Err(LedgerUnavailable), ops[i].value.generation)];
          ops[i] := None;
        }
      }
      assert ops[..] == OnTime(before, h.nowMs);
      return Outcome(replies, []);
    }
  }

  // ── Two phases, one decision ───────────────────────────────────────────

  /** What a request would be given if it were decided once, when its
      generation is read. */
  function OneShot(req: Request, p: Attachment, actor: Actor, current: U64, h: Host): Result<Option<Attachment>, Refusal> {
    if h.random.None? then Err(Busy)
    else
      match DecideRequest(req, p, Some(actor), current, h.random.value, h.nowMs)
      case Err(r) => Err(r)
      case Ok(g) => Sign(h, g.(publication := DigestOf(p)))
  }

  /** A request that got past its first decision is answered exactly as one
      decision at the ledger's reply would answer it. */
  lemma TwoPhasesAreOne(h: Host, req: Request, p: Attachment, signature: Signature, h': Host, status: Status, etag: nat, value: Stored,
                        op: Op)
    requires h.nowMs != 0 && StartRequest(h, req, p, signature).Ok?
    requires op == StartRequest(h, req, p, signature).value.(code := op.code, caller := op.caller, corr := op.corr,
                                                             deadlineMs := op.deadlineMs, stage := GetGeneration)
    requires status == StNotFound || (status == StOk && value.Generation?)
    ensures var current := if status == StOk then value.g else 0;
            Advance(h', op, status, etag, value) == Ended(OneShot(req, p, h.actor.value, current, h'), current)
    ensures op.OnKey() == Key(p.producerTenant, p.service)
  {
  }

  /** So a publication of any generation but the one read is granted nothing. */
  lemma OtherGenerationIsRevoked(h: Host, op: Op, status: Status, etag: nat, value: Stored)
    requires op.stage == GetGeneration && op.pending.PendingGrant?
    requires status == StNotFound || (status == StOk && value.Generation?)
    requires op.pending.publication.revocationGeneration != (if status == StOk then value.g else 0)
    ensures var step := Advance(h, op, status, etag, value); step.Ended? && step.result.Err?
    ensures h.nowMs != 0 && h.random.Some? && (op.pending.actor.class_ == Workload || op.pending.actor.class_ == Operator)
            && op.pending.publication.kind == Publication ==>
              Advance(h, op, status, etag, value).result == Err(Revoked)
  {
  }
}
