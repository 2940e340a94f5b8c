/** Every reply fits the frame it is written in: whatever a run does, a record
    that is handed out has few items, and none longer than an envelope. */
module StorageKeyFrames {
  import opened Basics
  import opened StorageKey
  import opened Ledger
  import opened StorageKeyService
  import opened StorageKeySystem
  import opened StorageKeyInvariants
  import opened StorageKeyRuns
  import opened StorageKeyTheorems

  const FIXED_LEN := 224
  const MAX_ID := 128
  const MAX_ITEMS := 3
  const MAX_SIGNATURE := 64
  const ENVELOPE_LEN := 260
  const PUBLIC_LEN := 65
  const MAX_RECORD := FIXED_LEN + 3 * (1 + MAX_ID) + 1 + MAX_ITEMS * (2 + ENVELOPE_LEN) + 2 + 2 + MAX_SIGNATURE
  const BUNDLE_LEN := 8 + 2 * ENVELOPE_LEN
  const EXTRA_LEN := 40
  const MAX_FRAME := 3 + 8 + 2 + MAX_RECORD + 2 + BUNDLE_LEN + 2 + 64

  // ── Sizes ──────────────────────────────────────────────────────────────

  function ItemLen(item: Item): nat {
    match item
    case EpochItem(es) => 4 * |es|
    case KeyItem(_) => PUBLIC_LEN
    case EnvelopeItem(_) => ENVELOPE_LEN
    case IdItem(_) => 16
    case DigestItem(_) => 32
  }

  function ItemsLen(items: seq<Item>): nat {
    if items == [] then 0 else 2 + ItemLen(items[0]) + ItemsLen(items[1..])
  }

  /** How long the names and the signature of a record are. */
  datatype Lengths = Lengths(issuer: nat, tenant: nat, device: nat, signature: nat) {
    predicate Ok() { issuer <= MAX_ID && tenant <= MAX_ID && device <= MAX_ID && 1 <= signature <= MAX_SIGNATURE }
  }

  /** `write_unsigned`, then `append_signature`. */
  function RecordLen(rec: Record, l: Lengths): nat {
    FIXED_LEN + (1 + l.issuer) + (1 + l.tenant) + (1 + l.device) + 1 + ItemsLen(rec.items) + 2 + 2 + l.signature
  }

  /** The payload `send_reply` writes, and the frame around it. */
  function PayloadLen(r: Reply, l: Lengths): nat {
    4 + 2 + (match r.record case Some(rec) => RecordLen(rec, l) case None => 0)
      + 2 + (if r.bundle == [] then 0 else BUNDLE_LEN)
      + 2 + (if r.extra.Some? then EXTRA_LEN else 0)
  }

  function FrameLen(r: Reply, l: Lengths): nat { 3 + PayloadLen(r, l) }

  // ── Records that are small ─────────────────────────────────────────────

  predicate Small(rec: Record) {
    |rec.items| <= MAX_ITEMS && forall i :: 0 <= i < |rec.items| ==> ItemLen(rec.items[i]) <= ENVELOPE_LEN
  }

  lemma {:induction false} SmallItems(items: seq<Item>)
    requires forall i :: 0 <= i < |items| ==> ItemLen(items[i]) <= ENVELOPE_LEN
    ensures ItemsLen(items) <= |items| * (2 + ENVELOPE_LEN)
  {
    if items != [] { SmallItems(items[1..]); }
  }

  /** The largest record is a small one with the longest names, full. */
  lemma SmallFits(rec: Record, l: Lengths)
    requires Small(rec) && l.Ok()
    ensures RecordLen(rec, l) <= MAX_RECORD
  {
    SmallItems(rec.items);
  }

  /** No smaller buffer would do: a recovery set of the longest names fills it. */
  lemma LargestFills(rec: Record, a: Envelope, b: Envelope, c: Envelope)
    requires rec.items == [EnvelopeItem(a), EnvelopeItem(b), EnvelopeItem(c)]
    ensures RecordLen(rec, Lengths(MAX_ID, MAX_ID, MAX_ID, MAX_SIGNATURE)) == MAX_RECORD
  {
    var last, two := [EnvelopeItem(c)], [EnvelopeItem(b), EnvelopeItem(c)];
    assert last[1..] == [] && two[1..] == last && rec.items[1..] == two;
    assert ItemsLen([]) == 0;
    assert ItemsLen(last) == 2 + ENVELOPE_LEN;
    assert ItemsLen(two) == 2 * (2 + ENVELOPE_LEN);
  }

  ghost predicate SmallAt(k: Key, v: Value) { k.GrantKey? && v.Rec? ==> Small(v.rec) }

  ghost predicate SmallReq(q: Request) {
    match q
    case PutIfAbsent(k, v) => SmallAt(k, v)
    case CompareAndSwap(k, _, v) => SmallAt(k, v)
    case _ => true
  }

  /** What an operation could still hand out or store. */
  ghost predicate SmallOp(op: Op) {
    && (op.out.Some? ==> Small(op.out.value))
    && (op.aux.Some? ==> Small(op.aux.value))
    && (op.grant.Held? ==> Small(op.grant.rec))
  }

  ghost predicate SmallTurn(t: Turn) { SmallOp(t.verdict.op) && forall q :: q in t.sends ==> SmallReq(q) }

  ghost predicate SmallReply(r: Reply) { r.record.Some? ==> Small(r.record.value) }

  ghost predicate SmallOutcome(r: Outcome) {
    && (r.op.Some? ==> SmallOp(r.op.value))
    && (forall q :: q in r.sends ==> SmallReq(q))
    && (forall x :: x in r.replies ==> SmallReply(x))
  }

  // ── Each stage ─────────────────────────────────────────────────────────

  lemma RetainedIsShort(g: Record, e: U32)
    ensures RetainedOf(g).Ok? ==> |RetainedOf(g).value| <= MAX_RETAINED_EPOCHS
    ensures RetainedOf(g).Ok? && RetainedPush(RetainedOf(g).value, e).Ok? ==>
              |RetainedPush(RetainedOf(g).value, e).value| <= MAX_RETAINED_EPOCHS
    ensures RetainedOf(g).Ok? ==> |RetainedRemove(RetainedOf(g).value, e)| <= MAX_RETAINED_EPOCHS
  {
  }

  lemma GrantIsSmall(g: Binding, names: Names, retained: seq<U32>)
    requires |retained| <= MAX_RETAINED_EPOCHS
    ensures Small(GrantRecord(g, names, retained))
  {
  }

  lemma SendSmall(h: Host, op: Op, next: Stage)
    requires SmallOp(op)
    ensures SmallTurn(Send(h, op, next))
  {
    hide Small;
  }

  lemma StartSmall(h: Host, cs: seq<Challenge>, op: Op)
    requires SmallOp(op)
    ensures SmallTurn(Start(h, cs, op).1)
  {
    if op.code == CreateOp { CreateSmall(h, op); }
    hide StartCreate, Small, SpendChallenge;
  }

  lemma CreateSmall(h: Host, op: Op)
    requires SmallOp(op)
    ensures SmallTurn(StartCreate(h, op))
  {
  }

  lemma ChangeSmall(h: Host, op: Op, g: Binding, tenant: Id, device: Id, retained: seq<U32>)
    requires SmallOp(op) && |retained| <= MAX_RETAINED_EPOCHS
    ensures SmallTurn(ChangeGrant(h, op, g, tenant, device, retained))
  {
    var next := g.(generation := WrapInc(g.generation), issuedMs := h.nowMs);
    GrantIsSmall(next, Names(h.issuer, tenant, device), retained);
    hide Small, GrantRecord;
  }

  lemma EraseNextSmall(h: Host, op: Op)
    requires SmallOp(op)
    ensures SmallTurn(EraseNext(h, op))
  {
    hide Small;
  }

  lemma StartEraseSmall(h: Host, op: Op, held: Record)
    requires SmallOp(op) && Small(held)
    ensures SmallTurn(StartErase(h, op, held))
  {
    var o := op.(audit := op.audit.(epoch := held.b.epoch, generation := held.b.generation));
    EraseNextSmall(h, o.(out := Some(held), cursor := 1));
    hide EraseNext;
  }

  lemma PolicySmall(h: Host, op: Op, held: Record, retained: seq<U32>)
    requires SmallOp(op) && |retained| <= MAX_RETAINED_EPOCHS
    ensures SmallTurn(SetPolicy(h, op, held, retained)) && SmallTurn(ReplaceDevice(h, op, held, retained))
  {
    hide ChangeGrant, Small, PolicyOk;
    if op.fields.PolicyChange? {
      var p := op.fields.policy;
      var g := held.b.(custody := p.custody, minTier := p.minTier, minAssurance := p.minAssurance, lifetimeSecs := p.lifetimeSecs);
      ChangeSmall(h, op, g.(revoked := false, revokedMs := 0), held.names.tenant, op.fields.device, retained);
      ChangeSmall(h, op, g, held.names.tenant, op.fields.device, retained);
    }
    if op.fields.Replacement? { ChangeSmall(h, op, held.b, held.names.tenant, op.fields.new_, retained); }
  }

  lemma AuthoriseSmall(h: Host, op: Op, held: Record)
    requires SmallOp(op)
    ensures SmallTurn(AuthoriseRecovery(h, op, held))
  {
  }

  lemma AfterGrantSmall(h: Host, op: Op, held: Record)
    requires SmallOp(op) && Small(held)
    ensures SmallTurn(AfterGrant(h, op, held))
  {
    hide Small, StartErase, SetPolicy, ReplaceDevice, ChangeGrant, AuthoriseRecovery, RetainedOf, RetainedRemove, Send, Admits;
    SendSmall(h, op, GetDevice);
    if op.code == EraseOp { StartEraseSmall(h, op, held); }
    var o := op.(audit := op.audit.(epoch := held.b.epoch, generation := held.b.generation));
    if RetainedOf(held).Ok? {
      var retained := RetainedOf(held).value;
      RetainedIsShort(held, if op.fields.EpochOnly? then op.fields.retired else 0);
      match op.code
      case RecordSetOp =>
        if op.fields.RecordSetFields? { SendSmall(h, o.(audit := o.audit.(epoch := op.fields.setEpoch)), GetSet); }
      case GrantOp | RotateGrantOp | ReplaceDeviceOp => PolicySmall(h, o, held, retained);
      case RevokeOp =>
        ChangeSmall(h, o, held.b.(revoked := true, revokedMs := h.nowMs), held.names.tenant, held.names.device, retained);
      case RetireEpochOp =>
        if op.fields.EpochOnly? {
          ChangeSmall(h, o.(audit := o.audit.(epoch := op.fields.retired)), held.b, held.names.tenant, held.names.device,
                      RetainedRemove(retained, op.fields.retired));
        }
      case RotateKeyOp => SendSmall(h, o, GetCurrentSet);
      case RecoveryAuthoriseOp => AuthoriseSmall(h, o, held);
      case _ =>
    }
  }

  lemma RotateSmall(h: Host, op: Op, held: Record)
    requires SmallOp(op)
    ensures SmallTurn(RotateKey(h, op, held))
  {
    RetainedIsShort(held, held.b.epoch);
    hide RetainedOf, RetainedPush;
  }

  lemma SetSmall(h: Host, op: Op, set_: Record)
    requires SmallOp(op)
    ensures SmallTurn(RecordSet(h, op, set_)) && SmallTurn(Decide(h, op, set_))
  {
    hide CheckCustodySet, DecideRelease;
  }

  lemma RenewSmall(h: Host, op: Op)
    requires SmallOp(op)
    ensures SmallTurn(Renew(h, op))
  {
    hide DecideRenewal;
  }

  lemma OrderSmall(h: Host, op: Op)
    requires SmallOp(op)
    ensures SmallTurn(OrderShares(h, op)) && SmallTurn(ConsumeHeldTicket(h, op))
  {
  }

  lemma ReadSmall(h: Host, op: Op, status: Status, etag: Etag, value: Value)
    requires SmallOp(op) && (op.stage == GetGrant && status == StOk && value.Rec? ==> Small(value.rec))
    requires StageRequest(op).Get?
    ensures SmallTurn(Advance(h, op, status, etag, value))
  {
    hide Small, GrantRead, CurrentSetRead, SweepRead, TicketRead, ChainRead, RecordSet, Decide, Send, SmallReq;
    var rec := if value.Rec? then value.rec else Record(NO_BINDING, Names(0, 0, 0), []);
    match op.stage
    case GetGrant =>
      GrantReadSmall(h, op, status, etag, value);
    case GetCurrentSet =>
      CurrentSetSmall(h, op, status, etag, value);
    case EraseGetSet => SweepSmall(h, op, status, etag, value);
    case GetDevice =>
      var o := op.(facts := h.facts);
      SendSmall(h, o, if op.code == RecoverOp then GetTicket else if op.code == RenewOp then GetChain else GetSet);
    case GetTicket => TicketSmall(h, op, status, etag, value);
    case GetSet => SetSmall(h, op.(set_ := Held(rec, etag)), rec);
    case GetChain => ChainSmall(h, op, status, etag, value);
    case GetOldSet => SendSmall(h, op.(set_ := HeldForDelete(value, etag)), DeleteSet);
    case _ =>
  }

  lemma ChainSmall(h: Host, op: Op, status: Status, etag: Etag, value: Value)
    requires SmallOp(op)
    ensures SmallTurn(ChainRead(h, op, status, etag, value))
  {
    hide Small, Renew;
    RenewSmall(h, op);
    RenewSmall(h, op.(chain := ChainHead(if value.Rec? then DigestOf(value.rec) else NoDigest, etag)));
  }

  lemma SweepSmall(h: Host, op: Op, status: Status, etag: Etag, value: Value)
    requires SmallOp(op)
    ensures SmallTurn(SweepRead(h, op, status, etag, value))
  {
    hide Small, EraseNext, Send;
    EraseNextSmall(h, op.(cursor := SatInc(op.cursor)));
    SendSmall(h, op.(set_ := HeldForDelete(value, etag)), EraseDeleteSet);
  }

  lemma GrantReadSmall(h: Host, op: Op, status: Status, etag: Etag, value: Value)
    requires SmallOp(op) && (status == StOk && value.Rec? ==> Small(value.rec))
    ensures SmallTurn(GrantRead(h, op, status, etag, value))
  {
    hide Small, AfterGrant;
    if status == StOk && value.Rec? { AfterGrantSmall(h, op.(grant := Held(value.rec, etag)), value.rec); }
  }

  lemma CurrentSetSmall(h: Host, op: Op, status: Status, etag: Etag, value: Value)
    requires SmallOp(op)
    ensures SmallTurn(CurrentSetRead(h, op, status, etag, value))
  {
    hide Small, RotateKey;
    if value.Rec? && op.grant.Held? { RotateSmall(h, op.(set_ := Held(value.rec, etag)), op.grant.rec); }
  }

  lemma TicketSmall(h: Host, op: Op, status: Status, etag: Etag, value: Value)
    requires SmallOp(op)
    ensures SmallTurn(TicketRead(h, op, status, etag, value))
  {
    hide Small, Send;
    if value.Rec? { SendSmall(h, op.(ticket := Held(value.rec, etag)), GetSet); }
  }

  lemma WriteSmall(h: Host, op: Op, status: Status, etag: Etag, value: Value)
    requires SmallOp(op) && !StageRequest(op).Get?
    ensures SmallTurn(Advance(h, op, status, etag, value))
  {
    hide Small, OrderShares, ConsumeHeldTicket, EraseNext, Send;
    OrderSmall(h, op);
    SendSmall(h, op, PutChain);
    SendSmall(h, op, PutSet);
    SendSmall(h, op, CasGrant);
    SendSmall(h, op, GetOldSet);
    EraseNextSmall(h, op.(cursor := 1));
    EraseNextSmall(h, op.(cursor := SatInc(op.cursor)));
  }

  lemma CustodianSmall(h: Host, op: Op, custodian: nat, ok: bool, env: Envelope)
    requires SmallOp(op)
    ensures SmallTurn(CustodianResult(h, op, custodian, ok, env))
  {
    hide CheckAnswer, WriteBundle, Small;
    if |op.envs| == 1 { ReleaseSmall(h, op.(answered := op.answered + {custodian}, envs := op.envs + [env])); }
    hide Release, SmallReq;
  }

  lemma EraseAnswerSmall(op: Op, custodian: nat, ok: bool)
    requires SmallOp(op)
    ensures SmallTurn(EraseResult(op, custodian, ok))
  {
    hide Small, SmallReq;
  }

  lemma ReleaseSmall(h: Host, op: Op)
    requires SmallOp(op) && |op.envs| == 2
    ensures SmallTurn(Release(h, op))
  {
    BundleIsTwo(op.envs[0], op.envs[1], op.auth);
    hide WriteBundle;
  }

  lemma BundleIsTwo(a: Envelope, b: Envelope, auth: Binding)
    ensures WriteBundle(a, b, auth).Ok? ==> |WriteBundle(a, b, auth).value| == 2
  {
  }

  lemma SettleSmall(h: Host, t: Turn)
    requires SmallTurn(t)
    ensures SmallOutcome(Settle(h, t))
  {
    hide Small;
  }

  lemma LedgerOpSmall(h: Host, op: Op, status: Status, etag: Etag, value: Value)
    requires SmallOp(op) && (op.stage == GetGrant && status == StOk && value.Rec? ==> Small(value.rec))
    ensures SmallOutcome(OnLedgerOp(h, op, status, etag, value))
  {
    hide Small, Advance, Settle;
    if op.stage != WriteAudit {
      if StageRequest(op).Get? { ReadSmall(h, op, status, etag, value); } else { WriteSmall(h, op, status, etag, value); }
      SettleSmall(h, Advance(h, op, status, etag, value));
    }
  }

  lemma CustodianOpSmall(h: Host, op: Op, custodian: nat, ok: bool, env: Envelope)
    requires SmallOp(op)
    ensures SmallOutcome(OnCustodianOp(h, op, custodian, ok, env))
  {
    hide Small, CustodianResult, EraseResult, Settle;
    CustodianSmall(h, op, custodian, ok, env);
    EraseAnswerSmall(op, custodian, ok);
    SettleSmall(h, CustodianResult(h, op, custodian, ok, env));
    SettleSmall(h, EraseResult(op, custodian, ok));
  }

  lemma ExpiredOpSmall(h: Host, op: Op)
    requires SmallOp(op)
    ensures SmallOutcome(OnExpiredOp(h, op))
  {
    hide Small, Settle;
    SettleSmall(h, Refuse(op, CustodianRefused));
    SettleSmall(h, Refuse(op, LedgerUnavailable));
  }

  // ── The whole system ───────────────────────────────────────────────────

  ghost predicate SmallLog(log: seq<Write>) { forall i :: 0 <= i < |log| ==> SmallAt(log[i].key, log[i].value) }

  ghost predicate SmallPacket(p: Packet) {
    match p
    case Ask(_, q) => SmallReq(q)
    case Ack(_, q, status, _, value) => SmallReq(q) && (q.Get? && status == StOk ==> SmallAt(q.key, value))
  }

  ghost predicate SmallNet(net: map<nat, Packet>) { forall u :: u in net ==> SmallPacket(net[u]) }

  ghost predicate SmallSlots(ops: seq<Option<Op>>) { forall i :: 0 <= i < |ops| && ops[i].Some? ==> SmallOp(ops[i].value) }

  ghost predicate SmallSvcs(svcs: map<nat, Svc>) { forall inst :: inst in svcs ==> SmallSlots(svcs[inst].ops) }

  ghost predicate SmallAnswers(answers: seq<Answer>) {
    forall i :: 0 <= i < |answers| ==> SmallReply(answers[i].reply)
  }

  ghost predicate SmallSystem(s: System) {
    SmallLog(s.store.log) && SmallNet(s.net) && SmallSvcs(s.svcs) && SmallAnswers(s.answers)
  }

  lemma {:induction false} PostSmall(net: map<nat, Packet>, uid: nat, who: Who, reqs: seq<Request>)
    requires SmallNet(net) && forall q :: q in reqs ==> SmallReq(q)
    ensures SmallNet(Post(net, uid, who, reqs))
    decreases |reqs|
  {
    hide SmallReq;
    if reqs != [] {
      assert reqs[0] in reqs;
      forall q | q in reqs[1..] ensures SmallReq(q) { assert q in reqs; }
      PostSmall(net[uid := Ask(who, reqs[0])], uid + 1, who, reqs[1..]);
    }
  }

  lemma SaidSmall(s: System, inst: nat, who: Who, from: Option<Who>, after: Svc, r: Outcome)
    requires SmallSystem(s) && SmallSlots(after.ops) && SmallOutcome(r)
    ensures SmallSystem(Said(s, inst, who, from, after, r))
  {
    hide SmallReq, SmallOp, SmallReply, Post, SmallLog;
    PostSmall(s.net, s.nextUid, who, r.sends);
    var more := Answers(inst, from, r.replies);
    forall i | 0 <= i < |s.answers + more| ensures SmallReply((s.answers + more)[i].reply) {
      if i >= |s.answers| { assert r.replies[i - |s.answers|] in r.replies; }
    }
  }

  lemma SlotChanged(ops: seq<Option<Op>>, i: nat, o: Option<Op>)
    requires SmallSlots(ops) && i < |ops| && (o.Some? ==> SmallOp(o.value))
    ensures SmallSlots(ops[i := o])
  {
    hide SmallOp;
  }

  lemma PresentSmall(s: System, inst: nat, h: Host, p: Payload)
    requires SmallSystem(s) && inst in s.svcs
    ensures SmallSystem(Presented(s, inst, OnRequest(s.svcs[inst], h, s.nextCaller, p)))
  {
    var svc := s.svcs[inst];
    var op := NewOp(h, s.nextCaller, svc.nextCorr, p);
    StartSmall(h, svc.challenges, op);
    hide SmallReq, SmallReply, Start, Settle, SmallTurn, SmallLog, SmallNet, SmallAnswers;
    var r := Settle(h, Start(h, svc.challenges, op).1);
    SettleSmall(h, Start(h, svc.challenges, op).1);
    var i := FreeSlot(svc.ops);
    if i < |svc.ops| { SlotChanged(svc.ops, i, r.op); }
    RequestSmall(svc, h, s.nextCaller, p, r);
    var call := OnRequest(svc, h, s.nextCaller, p);
    var who := Who(inst, svc.nextCorr);
    hide SmallOp, SmallSlots, SmallOutcome, OnRequest;
    SaidSmall(s.(nextCaller := s.nextCaller + 1, presentedTo := s.presentedTo[s.nextCaller := inst]), inst, who,
              if call.0.nextCorr == svc.nextCorr then None else Some(who), call.0, call.1);
  }

  /** A request answered at once carries no record. */
  lemma RequestSmall(svc: Svc, h: Host, caller: nat, p: Payload, r: Outcome)
    requires r == Settle(h, Start(h, svc.challenges, NewOp(h, caller, svc.nextCorr, p)).1) && SmallOutcome(r)
    requires SmallSlots(svc.ops) && (FreeSlot(svc.ops) < |svc.ops| ==> SmallSlots(svc.ops[FreeSlot(svc.ops) := r.op]))
    ensures var call := OnRequest(svc, h, caller, p); SmallSlots(call.0.ops) && SmallOutcome(call.1)
  {
    hide SmallOp, SmallReq, Start, Settle, SmallSlots;
  }

  lemma DeliverSmall(s: System, u: nat, h: Host)
    requires Inv(s) && SmallSystem(s) && Enabled(s, Deliver(u, h))
    ensures SmallSystem(Apply(s, Deliver(u, h)))
  {
    var p := s.net[u];
    var svc := s.svcs[p.who.inst];
    var i := LedgerSlot(svc.ops, p.who.corr);
    if i < |svc.ops| { GrantReplySmall(s, u, i); }
    hide Inv, SmallReq, SmallAt, SmallReply, OnLedgerOp, SmallLog, SmallAnswers;
    var t := s.(net := s.net - {u});
    assert SmallPacket(p) && SmallNet(t.net);
    var call := OnLedger(svc, h, p.who.corr, p.status, p.etag, p.value);
    if i < |svc.ops| {
      LedgerOpSmall(h, svc.ops[i].value, p.status, p.etag, p.value);
      SlotChanged(svc.ops, i, call.1.op);
    }
    hide SmallOp, SmallNet;
    SaidSmall(t, p.who.inst, p.who, Some(p.who), call.0, call.1);
  }

  /** The reply an operation takes for its grant is the one it asked for. */
  lemma GrantReplySmall(s: System, u: nat, i: nat)
    requires Inv(s) && SmallSystem(s) && u in s.net && s.net[u].Ack? && Live(s, s.net[u].who.inst, i)
    requires OpAt(s, s.net[u].who.inst, i).corr == s.net[u].who.corr
    ensures var op := OpAt(s, s.net[u].who.inst, i);
            op.stage == GetGrant && s.net[u].status == StOk && s.net[u].value.Rec? ==> Small(s.net[u].value.rec)
  {
    SlotIsOk(s, s.net[u].who.inst, i);
    hide Inv, OpOk, Small;
    assert SmallPacket(s.net[u]);
  }

  lemma ServeSmall(s: System, u: nat, how: Serving)
    requires LedgerOk(s.store) && SmallSystem(s) && Enabled(s, Serve(u, how))
    ensures SmallSystem(Apply(s, Serve(u, how)))
  {
    hide Small, SmallSvcs, SmallAnswers;
    var p := s.net[u];
    assert SmallPacket(p);
    if p.req.Get? && p.req.key in s.store.ledger {
      var e := s.store.ledger[p.req.key];
      assert WroteAt(s.store.log, e.etag, p.req.key, e.value);
      assert SmallAt(s.store.log[e.etag].key, s.store.log[e.etag].value);
    }
  }

  lemma StepSmall(s: System, a: Action)
    requires Inv(s) && SmallSystem(s) && Enabled(s, a)
    ensures SmallSystem(Apply(s, a))
  {
    match a {
      case Present(i, h, p) => PresentSmall(s, i, h, p);
      case Serve(u, how) => ServeSmall(s, u, how);
      case Deliver(u, h) => DeliverSmall(s, u, h);
      case CustodianSays(i, h, corr, c, ok, env) => SaysSmall(s, i, h, corr, c, ok, env);
      case ClockTick(i, h) => TickSmall(s, i, h);
      case _ => QuietSmall(s, a);
    }
  }

  lemma QuietSmall(s: System, a: Action)
    requires SmallSystem(s) && Enabled(s, a)
    requires a.Spawn? || a.Crash? || a.Lose? || a.OtherClaims? || a.DirectoryChanges?
    ensures SmallSystem(Apply(s, a))
  {
    hide Small, SmallPacket, SmallOp, SmallAnswers;
  }

  lemma SaysSmall(s: System, inst: nat, h: Host, corr: nat, c: nat, ok: bool, env: Envelope)
    requires SmallSystem(s) && inst in s.svcs
    ensures SmallSystem(Heard(s, Who(inst, corr), OnCustodian(s.svcs[inst], h, corr, c, ok, env)))
  {
    hide SmallReq, SmallReply, OnCustodianOp, SmallLog, SmallAnswers, SmallNet;
    var svc := s.svcs[inst];
    var i := CustodianSlot(svc.ops, corr);
    var call := OnCustodian(svc, h, corr, c, ok, env);
    if i < |svc.ops| {
      CustodianOpSmall(h, svc.ops[i].value, c, ok, env);
      SlotChanged(svc.ops, i, call.1.op);
    }
    hide SmallOp;
    SaidSmall(s, inst, Who(inst, corr), Some(Who(inst, corr)), call.0, call.1);
  }

  lemma TickSmall(s: System, inst: nat, h: Host)
    requires SmallSystem(s) && inst in s.svcs
    ensures SmallSystem(Heard(s, Who(inst, ExpiredCorr(s.svcs[inst], h.nowMs)), Tick(s.svcs[inst], h)))
  {
    hide SmallReq, SmallReply, OnExpiredOp, SmallLog, SmallAnswers, SmallNet;
    var svc := s.svcs[inst];
    var i := ExpiredSlot(svc.ops, h.nowMs);
    var call := Tick(svc, h);
    if i < |svc.ops| {
      ExpiredOpSmall(h, svc.ops[i].value);
      SlotChanged(svc.ops, i, call.1.op);
    }
    hide SmallOp;
    var who := Who(inst, ExpiredCorr(svc, h.nowMs));
    SaidSmall(s, inst, who, Some(who), call.0, call.1);
  }

  lemma {:induction false} RunSmall(actions: seq<Action>)
    requires IsRun(actions)
    ensures SmallSystem(After(actions))
  {
    hide Inv, Apply, Enabled;
    if actions != [] {
      RunSmall(actions[..|actions| - 1]);
      RunKeeps(actions[..|actions| - 1]);
      StepSmall(After(actions[..|actions| - 1]), actions[|actions| - 1]);
    }
  }

  // ── What it comes to ───────────────────────────────────────────────────

  /** Every reply of every run fits the payload buffer, a sixteen-bit length
      and the frame, whatever the lengths of its record's names. */
  lemma EveryReplyFits(s: System, a: Answer, l: Lengths)
    requires Reached(s) && a in s.answers && l.Ok()
    ensures a.reply.record.Some? ==> RecordLen(a.reply.record.value, l) <= MAX_RECORD
    ensures PayloadLen(a.reply, l) <= MAX_FRAME && FrameLen(a.reply, l) <= MAX_FRAME && MAX_FRAME <= 0xFFFF
  {
    hide Inv, IsRun, SmallLog, SmallNet, SmallSvcs, RecordLen;
    var actions :| IsRun(actions) && After(actions) == s;
    RunSmall(actions);
    if a.reply.record.Some? { SmallFits(a.reply.record.value, l); }
  }
}
