/** What one turn of one operation keeps: from an operation whose facts the
    log holds, every stage sends only requests that are safe to apply whenever
    they arrive, and says only what the log already backs. */
module StorageKeyTurns {
  import opened Basics
  import opened StorageKey
  import opened Ledger
  import opened StorageKeyService
  import opened StorageKeySystem
  import opened StorageKeyInvariants

  ghost predicate SameOp(a: Op, b: Op) {
    && a.code == b.code && a.caller == b.caller && a.corr == b.corr && a.res == b.res && a.fields == b.fields
    && b.refusal.None? && b.audit.op == b.code && (b.fields.Proven? ==> b.res == b.fields.req.res)
  }

  /** An operation as it stands before it is decided. */
  ghost predicate Plain(op: Op) { SameOp(op, op) }

  ghost predicate TurnOk(log: seq<Write>, who: Who, op: Op, t: Turn) {
    && SameOp(op, t.verdict.op)
    && (t.verdict.Next? ==>
          && OpOk(log, who, t.verdict.op)
          && t.verdict.op.stage != WriteAudit
          && t.sends == if AwaitsCustodians(t.verdict.op.stage) then [] else [StageRequest(t.verdict.op)])
    && (t.verdict.Done? ==> t.sends == [] && Decided(log, who, t.verdict.op))
    && (t.verdict.Fail? ==> t.sends == [])
    && (forall o :: o in t.orders ==> OrderOk(log, who, o))
  }

  // ── Grants ─────────────────────────────────────────────────────────────

  /** A list that may be retained reads back from the grant that carries it. */
  lemma GrantReadsBack(g: Binding, names: Names, retained: seq<U32>)
    requires g.kind == Grant && |retained| <= MAX_RETAINED_EPOCHS && Ascending(retained, g.epoch)
    ensures RetainedOf(GrantRecord(g, names, retained)) == Ok(retained)
  {
  }

  lemma RetainedIsAscending(rec: Record)
    requires IsGrant(rec)
    ensures |Retained(rec)| <= MAX_RETAINED_EPOCHS && Ascending(Retained(rec), rec.b.epoch)
  {
  }

  lemma RemoveDropsOne(epochs: seq<U32>, e: U32, current: U32)
    requires e in epochs && Ascending(epochs, current)
    ensures DropsOne(epochs, RetainedRemove(epochs, e))
    ensures Ascending(RetainedRemove(epochs, e), current)
    ensures e !in RetainedRemove(epochs, e)
    ensures |RetainedRemove(epochs, e)| == |epochs| - 1
  {
    var i := PositionOf(epochs, e);
    var after := RetainedRemove(epochs, e);
    assert i < |epochs| && after == epochs[..i] + epochs[i + 1..];
    assert forall j :: 0 <= j < |after| ==> after[j] == if j < i then epochs[j] else epochs[j + 1];
    assert forall j :: 0 <= j < |epochs| && j != i ==> epochs[j] != epochs[i];
  }

  /** A changed grant follows the one it was read from. */
  lemma ChangeFollows(held: Record, g: Binding, names: Names, retained: seq<U32>)
    requires IsGrant(held)
    requires g.kind == Grant && g.res == held.b.res && g.grantId == held.b.grantId
    requires g.generation == WrapInc(held.b.generation) && g.epoch == held.b.epoch && g.setId == held.b.setId
    requires retained == Retained(held) || (DropsOne(Retained(held), retained) && Ascending(retained, g.epoch))
    ensures GrantSucc(held, GrantRecord(g, names, retained))
    ensures Retained(GrantRecord(g, names, retained)) == retained
  {
    RetainedIsAscending(held);
    GrantReadsBack(g, names, retained);
  }

  lemma RotationFollows(held: Record, g: Binding, names: Names, kept: seq<U32>)
    requires IsGrant(held) && held.b.epoch < U32_MAX
    requires RetainedPush(Retained(held), held.b.epoch) == Ok(kept)
    requires g.kind == Grant && g.res == held.b.res && g.grantId == held.b.grantId
    requires g.generation == WrapInc(held.b.generation) && g.epoch == held.b.epoch + 1
    ensures GrantSucc(held, GrantRecord(g, names, kept))
  {
    RetainedIsAscending(held);
    assert Ascending(kept, g.epoch);
    GrantReadsBack(g, names, kept);
  }

  // ── Starting ───────────────────────────────────────────────────────────

  lemma StartOk(log: seq<Write>, who: Who, h: Host, cs: seq<Challenge>, caller: nat, corr: nat, p: Payload)
    ensures TurnOk(log, who, NewOp(h, caller, corr, p), Start(h, cs, NewOp(h, caller, corr, p)).1)
  {
    hide StartCreate, OpOk, Decided, OrderOk, SpendChallenge, Send;
    var op := NewOp(h, caller, corr, p);
    if op.code == CreateOp {
      StartCreateOk(log, who, h, op);
    } else {
      var a := op.audit;
      if !op.IsProven() { ReadsGrant(log, who, h, op); }
      if op.fields.RecordSetFields? { ReadsGrant(log, who, h, op.(audit := a.(epoch := op.fields.setEpoch))); }
      if op.Attach().Ok? {
        var req := op.Attach().value;
        ReadsGrant(log, who, h, op.(audit := a.(antiReplay := req.antiReplay, fence := req.fence, epoch := req.epoch)));
      }
    }
  }

  lemma ReadsGrant(log: seq<Write>, who: Who, h: Host, op: Op)
    requires Plain(op) && op.code != CreateOp && (op.IsProven() && op.fields.Proven? ==> op.audit.epoch == op.fields.req.epoch)
    requires op.chain.NoHead? && op.envs == [] && op.asked == {} && op.answered == {}
    ensures TurnOk(log, who, op, Send(h, op, GetGrant))
  {
  }

  lemma StartCreateOk(log: seq<Write>, who: Who, h: Host, op: Op)
    requires Plain(op) && op.code == CreateOp
    ensures TurnOk(log, who, op, StartCreate(h, op))
  {
    var t := StartCreate(h, op);
    if t.verdict.Next? {
      var g := t.verdict.op.aux.value;
      assert RetainedOf(g) == Ok([]);
    }
  }

  // ── The grant is read ──────────────────────────────────────────────────

  ghost predicate IsGrantChange(c: OpCode) {
    c == GrantOp || c == RotateGrantOp || c == ReplaceDeviceOp || c == RevokeOp || c == RetireEpochOp
  }

  /** A re-signed grant waiting to replace the one read. */
  lemma SwapReady(log: seq<Write>, who: Who, op: Op)
    requires HoldsGrant(log, op) && Plain(op) && op.grant.rec.b.res == op.res
    requires IsGrantChange(op.code) && op.stage == CasGrant && op.out.Some?
    requires GrantSucc(op.grant.rec, op.out.value) && op.out.value.b.epoch == op.grant.rec.b.epoch
    requires op.code == RetireEpochOp ==>
               IsGrant(op.out.value) && op.audit.epoch < op.out.value.b.epoch && !Admits(op.out.value, op.audit.epoch)
    ensures OpOk(log, who, op)
  {
  }

  lemma ChangeGrantOk(log: seq<Write>, who: Who, h: Host, op: Op, g: Binding, tenant: Id, device: Id, retained: seq<U32>)
    requires HoldsGrant(log, op) && Plain(op)
    requires op.grant.rec.b.res == op.res
    requires IsGrantChange(op.code)
    requires g.kind == Grant && g.res == op.res && g.grantId == op.grant.rec.b.grantId
    requires g.generation == op.grant.rec.b.generation
    requires g.epoch == op.grant.rec.b.epoch && g.setId == op.grant.rec.b.setId
    requires retained == Retained(op.grant.rec) || (DropsOne(Retained(op.grant.rec), retained) && Ascending(retained, g.epoch))
    requires op.code == RetireEpochOp ==> op.audit.epoch < g.epoch && op.audit.epoch !in retained
    ensures TurnOk(log, who, op, ChangeGrant(h, op, g, tenant, device, retained))
  {
    var next := g.(generation := WrapInc(g.generation), issuedMs := h.nowMs);
    ChangeFollows(op.grant.rec, next, Names(h.issuer, tenant, device), retained);
    var t := ChangeGrant(h, op, g, tenant, device, retained);
    if t.verdict.Next? {
      SwapReady(log, who, t.verdict.op);
    }
  }

  lemma StartEraseOk(log: seq<Write>, who: Who, h: Host, op: Op)
    requires op.grant.Held? && WroteAt(log, op.grant.etag, GrantKey(op.res), Rec(op.grant.rec))
    requires op.grant.rec.b.res == op.res && (IsGrant(op.grant.rec) || op.grant.rec.b.kind == Erasure)
    requires Plain(op) && op.code == EraseOp
    ensures TurnOk(log, who, op, StartErase(h, op, op.grant.rec))
  {
    var held := op.grant.rec;
    var o := op.(audit := op.audit.(epoch := held.b.epoch, generation := held.b.generation));
    if held.b.kind == Erasure {
      assert WasErased(log, op.res);
      EraseNextOk(log, who, h, o.(out := Some(held), cursor := 1));
    } else if op.fields.EraseScan? && op.fields.pins == 0 && op.fields.scanned == held.b.epoch {
      var t := StartErase(h, op, held);
      if t.verdict.Next? {
        assert GrantSucc(held, t.verdict.op.out.value);
      }
    }
  }

  lemma EraseNextOk(log: seq<Write>, who: Who, h: Host, op: Op)
    requires Plain(op) && op.code == EraseOp && WasErased(log, op.res)
    ensures TurnOk(log, who, op, EraseNext(h, op))
  {
    hide WasErased, Decided, OrderErasure, OrderOk;
    OrderErasureOk(log, who, h, op);
  }

  lemma OrderErasureOk(log: seq<Write>, who: Who, h: Host, op: Op)
    requires Plain(op) && op.code == EraseOp && WasErased(log, op.res)
    ensures TurnOk(log, who, op, OrderErasure(h, op))
  {
    hide WasErased, Decided, ReqOk;
  }

  lemma SetPolicyOk(log: seq<Write>, who: Who, h: Host, op: Op)
    requires HoldsGrant(log, op) && Plain(op)
    requires op.grant.rec.b.res == op.res && (op.code == GrantOp || op.code == RotateGrantOp)
    ensures TurnOk(log, who, op, SetPolicy(h, op, op.grant.rec, Retained(op.grant.rec)))
  {
    var held := op.grant.rec;
    if op.fields.PolicyChange? {
      var p := op.fields.policy;
      var g := held.b.(custody := p.custody, minTier := p.minTier, minAssurance := p.minAssurance,
                       lifetimeSecs := p.lifetimeSecs);
      ChangeGrantOk(log, who, h, op, if op.code == GrantOp then g.(revoked := false, revokedMs := 0) else g,
                    held.names.tenant, op.fields.device, Retained(held));
    }
  }

  lemma RetireOk(log: seq<Write>, who: Who, h: Host, op: Op)
    requires HoldsGrant(log, op) && Plain(op) && op.code == RetireEpochOp
    requires op.grant.rec.b.res == op.res && op.fields.EpochOnly? && op.fields.retired in Retained(op.grant.rec)
    requires op.audit.epoch == op.fields.retired
    ensures TurnOk(log, who, op, ChangeGrant(h, op, op.grant.rec.b, op.grant.rec.names.tenant, op.grant.rec.names.device,
                                             RetainedRemove(Retained(op.grant.rec), op.fields.retired)))
  {
    var held := op.grant.rec;
    RetainedIsAscending(held);
    RemoveDropsOne(Retained(held), op.fields.retired, held.b.epoch);
    ChangeGrantOk(log, who, h, op, held.b, held.names.tenant, held.names.device,
                  RetainedRemove(Retained(held), op.fields.retired));
  }

  lemma AuthoriseOk(log: seq<Write>, who: Who, h: Host, op: Op, held: Record)
    requires Plain(op) && op.code == RecoveryAuthoriseOp && held.b.res == op.res
    ensures TurnOk(log, who, op, AuthoriseRecovery(h, op, held))
  {
  }

  lemma SimpleChangeOk(log: seq<Write>, who: Who, h: Host, op: Op)
    requires HoldsGrant(log, op) && op.grant.rec.b.res == op.res && Plain(op)
    requires op.code == ReplaceDeviceOp || op.code == RevokeOp
    ensures TurnOk(log, who, op, AfterGrant(h, op, op.grant.rec))
  {
    hide ChangeGrant, OpOk, Decided, OrderOk;
    var held := op.grant.rec;
    var o := op.(audit := op.audit.(epoch := held.b.epoch, generation := held.b.generation));
    assert HoldsGrant(log, o);
    if op.code == RevokeOp {
      ChangeGrantOk(log, who, h, o, held.b.(revoked := true, revokedMs := h.nowMs), held.names.tenant,
                    held.names.device, Retained(held));
    } else if op.fields.Replacement? {
      ChangeGrantOk(log, who, h, o, held.b, held.names.tenant, op.fields.new_, Retained(held));
    }
  }

  /** The branches of `after_grant` that change the grant. */
  lemma GrantChangeOk(log: seq<Write>, who: Who, h: Host, op: Op)
    requires HoldsGrant(log, op) && op.grant.rec.b.res == op.res && Plain(op)
    requires op.code == GrantOp || op.code == RotateGrantOp || op.code == RetireEpochOp
    ensures TurnOk(log, who, op, AfterGrant(h, op, op.grant.rec))
  {
    var held := op.grant.rec;
    var o := op.(audit := op.audit.(epoch := held.b.epoch, generation := held.b.generation));
    assert HoldsGrant(log, o);
    if op.code != RetireEpochOp {
      SetPolicyOk(log, who, h, o);
    } else if op.fields.EpochOnly? && op.fields.retired in Retained(held) {
      RetireOk(log, who, h, o.(audit := o.audit.(epoch := op.fields.retired)));
    }
  }

  /** The branches of `after_grant` that only read on. */
  lemma ProvenReadsOn(log: seq<Write>, who: Who, h: Host, op: Op)
    requires HoldsGrant(log, op) && Plain(op) && op.IsProven() && Untouched(op)
    ensures TurnOk(log, who, op, AfterGrant(h, op, op.grant.rec))
  {
  }

  lemma RotationReadsOn(log: seq<Write>, who: Who, h: Host, op: Op)
    requires HoldsGrant(log, op) && Plain(op) && op.code == RotateKeyOp
    ensures TurnOk(log, who, op, AfterGrant(h, op, op.grant.rec))
  {
  }

  lemma RecordingReadsOn(log: seq<Write>, who: Who, h: Host, op: Op)
    requires HoldsGrant(log, op) && Plain(op) && op.code == RecordSetOp && Untouched(op)
    ensures TurnOk(log, who, op, AfterGrant(h, op, op.grant.rec))
  {
  }

  lemma AfterGrantOk(log: seq<Write>, who: Who, h: Host, op: Op)
    requires op.grant.Held? && WroteAt(log, op.grant.etag, GrantKey(op.res), Rec(op.grant.rec))
    requires op.grant.rec.b.res == op.res
    requires IsGrant(op.grant.rec) || (op.grant.rec.b.kind == Erasure && op.code == EraseOp)
    requires Plain(op) && op.code != CreateOp && Untouched(op)
    ensures TurnOk(log, who, op, AfterGrant(h, op, op.grant.rec))
  {
    match op.code
    case EraseOp => StartEraseOk(log, who, h, op);
    case ReplaceDeviceOp | RevokeOp => SimpleChangeOk(log, who, h, op);
    case GrantOp | RotateGrantOp | RetireEpochOp => GrantChangeOk(log, who, h, op);
    case RecoveryAuthoriseOp =>
      AuthoriseOk(log, who, h, op.(audit := op.audit.(epoch := op.grant.rec.b.epoch, generation := op.grant.rec.b.generation)),
                  op.grant.rec);
    case AttachOp | RecoverOp | RenewOp => ProvenReadsOn(log, who, h, op);
    case RotateKeyOp => RotationReadsOn(log, who, h, op);
    case RecordSetOp => RecordingReadsOn(log, who, h, op);
    case ChallengeOp | UnknownOp =>
  }

  // ── Rotation ───────────────────────────────────────────────────────────

  lemma RotateKeyOk(log: seq<Write>, who: Who, h: Host, op: Op)
    requires HoldsGrant(log, op) && op.grant.rec.b.res == op.res
    requires Plain(op) && op.code == RotateKeyOp
    requires HasRecoverySet(log, op.res, op.grant.rec.b.epoch)
    ensures TurnOk(log, who, op, RotateKey(h, op, op.grant.rec))
  {
    hide Decided, OrderOk, GrantSucc, RetainedOf, RetainedPush, AuditBacked, RotationBacked;
    var held := op.grant.rec;
    var t := RotateKey(h, op, held);
    if t.verdict.Next? {
      var kept := RetainedPush(Retained(held), held.b.epoch).value;
      var g := t.verdict.op.aux.value;
      RotationFollows(held, g.b.(retained := held.b.retained), g.names, kept);
      assert g == GrantRecord(g.b.(retained := held.b.retained), g.names, kept);
      assert CreationBacked(log, op.res, t.verdict.op.audit.epoch, g.b.setId);
    }
  }

  lemma RecordSetOk(log: seq<Write>, who: Who, h: Host, op: Op)
    requires Plain(op) && op.code == RecordSetOp && HoldsGrant(log, op)
    requires op.fields.RecordSetFields? && op.fields.setEpoch == op.audit.epoch && Admits(op.grant.rec, op.audit.epoch)
    requires op.set_.Held? && WroteAt(log, op.set_.etag, SetKey(op.res, op.audit.epoch), Rec(op.set_.rec))
    ensures TurnOk(log, who, op, RecordSet(h, op, op.set_.rec))
  {
    hide Decided, OrderOk, AuditBacked, RotationBacked, CheckCustodySet, GrantedTo;
    assert WasAdmitted(log, op.res, op.audit.epoch);
  }

  // ── Release and renewal ────────────────────────────────────────────────

  lemma DecideOk(log: seq<Write>, who: Who, h: Host, op: Op)
    requires Plain(op) && op.IsRelease() && HoldsGrant(log, op) && op.set_.Held? && op.fields.Proven?
    requires op.code == RecoverOp ==> HoldsTicket(log, op)
    requires op.envs == [] && op.asked == {} && op.answered == {}
    requires WroteAt(log, op.set_.etag, SetKey(op.res, op.fields.req.epoch), Rec(op.set_.rec))
    ensures TurnOk(log, who, op, Decide(h, op, op.set_.rec))
  {
    var t := Decide(h, op, op.set_.rec);
    if t.verdict.Next? {
      ReleaseGranted(log, t.verdict.op);
    }
  }

  /** The grant and the set the decision read are what it stands on. */
  lemma ReleaseGranted(log: seq<Write>, op: Op)
    requires HoldsGrant(log, op) && op.fields.Proven? && op.set_.Held? && op.auth.res == op.res
    requires AdmitsBinding(op.grant.rec, op.auth, op.fields.req.device)
    requires WroteAt(log, op.set_.etag, SetKey(op.res, op.auth.epoch), Rec(op.set_.rec))
    requires op.set_.rec.b.kind == RecoverySet && op.set_.rec.b.setId == op.auth.setId
    ensures GrantedTo(log, op)
  {
  }

  lemma RenewOk(log: seq<Write>, who: Who, h: Host, op: Op)
    requires Plain(op) && op.code == RenewOp && HoldsGrant(log, op) && op.fields.Proven? && HoldsHead(log, op)
    ensures TurnOk(log, who, op, Renew(h, op))
  {
    var t := Renew(h, op);
    if t.verdict.Next? {
      var o := t.verdict.op;
      RenewalIsReady(log, h, op, o);
      RenewalClaims(log, who, o);
    }
  }

  lemma RenewalIsReady(log: seq<Write>, h: Host, op: Op, o: Op)
    requires Plain(op) && op.code == RenewOp && HoldsGrant(log, op) && op.fields.Proven? && HoldsHead(log, op)
    requires Renew(h, op).verdict == Next(o)
    ensures RenewalReady(log, o) && GrantedTo(log, o)
  {
    var att := op.fields.attachment.value;
    assert IsRenewalOf(o.out.value, att);
    if op.chain.ChainHead? {
      assert log[op.chain.etag].value.rec == att;
    }
    assert AdmitsBinding(o.grant.rec, o.auth, o.fields.req.device);
  }

  lemma RenewalClaims(log: seq<Write>, who: Who, o: Op)
    requires o.stage == ClaimReplay && Plain(o) && o.code == RenewOp && RenewalReady(log, o) && GrantedTo(log, o)
    requires o.auth.res == o.res && o.audit.antiReplay == o.auth.antiReplay
    ensures OpOk(log, who, o)
  {
  }

  lemma ConsumeOk(log: seq<Write>, who: Who, h: Host, op: Op)
    requires Plain(op) && op.code == RecoverOp && GrantedTo(log, op)
    requires HoldsTicket(log, op) && !op.ticket.rec.b.consumed && op.ticket.rec.b.epoch == op.auth.epoch
    requires op.auth.res == op.res && op.auth.kind == Recovery && op.audit.antiReplay == op.auth.antiReplay
    requires Claimed(log, who, op.auth.antiReplay)
    requires op.envs == [] && op.asked == {} && op.answered == {}
    ensures TurnOk(log, who, op, ConsumeHeldTicket(h, op))
  {
    var t := ConsumeHeldTicket(h, op);
    if t.verdict.Next? {
      TicketReady(log, who, op, t.verdict.op);
    }
  }

  /** The ticket read, marked used, may replace it. */
  lemma TicketReady(log: seq<Write>, who: Who, op: Op, o: Op)
    requires o.stage == ConsumeTicket && Plain(op) && op.code == RecoverOp && GrantedTo(log, op)
    requires HoldsTicket(log, op) && !op.ticket.rec.b.consumed && op.ticket.rec.b.epoch == op.auth.epoch
    requires op.auth.res == op.res && op.auth.kind == Recovery && op.audit.antiReplay == op.auth.antiReplay
    requires Claimed(log, who, op.auth.antiReplay)
    requires op.envs == [] && op.asked == {} && op.answered == {}
    requires o.aux.Some? && o.aux.value.b == op.ticket.rec.b.(consumed := true) && o.aux.value.names == op.ticket.rec.names
    requires o == op.(stage := ConsumeTicket, aux := o.aux, deadlineMs := o.deadlineMs)
    ensures OpOk(log, who, o)
  {
  }

  /** What a release knows once everything durable is behind it. */
  ghost predicate Authorised(log: seq<Write>, who: Who, op: Op) {
    && Plain(op) && op.IsRelease() && GrantedTo(log, op)
    && op.auth.res == op.res && op.audit.antiReplay == op.auth.antiReplay
    && Claimed(log, who, op.auth.antiReplay)
    && (op.code == AttachOp ==> op.auth.kind == Attachment)
    && (op.code == RecoverOp ==> op.auth.kind == Recovery && SpentSome(log, who, op.auth))
  }

  /** An authorised release that waits for its custodians. */
  lemma CollectingOk(log: seq<Write>, who: Who, op: Op)
    requires op.stage == Custodians && Authorised(log, who, op) && Gathering(op)
    requires op.out.Some? && op.out.value.b == op.auth && op.out.value.items == []
    requires op.out.value.names.device == op.fields.req.device
    ensures OpOk(log, who, op)
    ensures forall c, recipient, env :: OrderOk(log, who, RewrapOrder(c, op.out.value, recipient, env))
  {
  }

  lemma SendOrderOk(log: seq<Write>, who: Who, h: Host, op: Op, custodian: nat)
    requires Authorised(log, who, op) && op.stage == Custodians && Gathering(op) && custodian <= 2
    requires op.out.Some? && op.out.value.b == op.auth && op.out.value.items == []
    requires op.out.value.names.device == op.fields.req.device
    ensures TurnOk(log, who, op, SendOrder(h, op, custodian))
    ensures SendOrder(h, op, custodian).verdict.op == op.(asked := op.asked + {custodian})
  {
    hide OpOk, Decided, OrderOk, Granted;
    CollectingOk(log, who, op.(asked := op.asked + {custodian}));
  }

  lemma OrderSharesOk(log: seq<Write>, who: Who, h: Host, op: Op)
    requires Authorised(log, who, op) && op.envs == [] && op.asked == {} && op.answered == {}
    ensures TurnOk(log, who, op, OrderShares(h, op))
  {
    hide OpOk, Decided, OrderOk;
    var authorisation := Record(op.auth, ReleaseNames(op), []);
    var o := op.(out := Some(authorisation), stage := Custodians, deadlineMs := SatAdd(h.nowMs, STAGE_TIMEOUT_MS));
    SendOrderOk(log, who, h, o, 0);
    SendOrderOk(log, who, h, o.(asked := o.asked + {0}), 1);
  }

  lemma ReleaseOk(log: seq<Write>, who: Who, h: Host, op: Op)
    requires Authorised(log, who, op) && |op.envs| == 2
    ensures TurnOk(log, who, op, Release(h, op))
  {
  }

  lemma CustodianResultOk(log: seq<Write>, who: Who, h: Host, op: Op, custodian: nat, ok: bool, env: Envelope)
    requires Plain(op) && op.stage == Custodians && StageOk(log, who, op)
    ensures TurnOk(log, who, op, CustodianResult(h, op, custodian, ok, env))
  {
    if custodian <= 2 && custodian in op.asked && custodian !in op.answered {
      var o := op.(answered := op.answered + {custodian});
      if CheckAnswer(op, custodian, ok, env).Passed? {
        EnvelopeKept(log, who, h, op, custodian, env);
      } else if Spare(o.asked).Some? {
        SendOrderOk(log, who, h, o.(deadlineMs := SatAdd(h.nowMs, STAGE_TIMEOUT_MS)), Spare(o.asked).value);
      }
    } else {
      CollectingOk(log, who, op);
    }
  }

  lemma EnvelopeKept(log: seq<Write>, who: Who, h: Host, op: Op, custodian: nat, env: Envelope)
    requires Plain(op) && op.stage == Custodians && StageOk(log, who, op)
    requires custodian <= 2 && custodian in op.asked && custodian !in op.answered
    requires CheckAnswer(op, custodian, true, env).Passed?
    ensures TurnOk(log, who, op, CustodianResult(h, op, custodian, true, env))
  {
    var o := op.(answered := op.answered + {custodian});
    var o' := o.(envs := o.envs + [env]);
    if |o.envs| >= 2 {
      CollectingOk(log, who, o);
    } else if |o'.envs| == 2 {
      ReleaseOk(log, who, h, o');
    } else {
      CollectingOk(log, who, o');
    }
  }

  lemma EraseResultOk(log: seq<Write>, who: Who, op: Op, custodian: nat, ok: bool)
    requires Plain(op) && op.stage == EraseCustodians && OpOk(log, who, op)
    ensures TurnOk(log, who, op, EraseResult(op, custodian, ok))
  {
  }

  // ── Any ledger reply ───────────────────────────────────────────────────

  lemma GrantReadOk(log: seq<Write>, who: Who, h: Host, op: Op, status: Status, etag: Etag, value: Value)
    requires Typed(log) && Plain(op) && op.code != CreateOp && Untouched(op)
    requires status == StOk ==> WroteAt(log, etag, GrantKey(op.res), value)
    ensures TurnOk(log, who, op, GrantRead(h, op, status, etag, value))
  {
    if status == StOk && value.Rec? {
      var kind := value.rec.b.kind;
      if kind == Grant || (kind == Erasure && op.code == EraseOp) {
        var o := op.(grant := Held(value.rec, etag));
        AfterGrantOk(log, who, h, o);
        assert SameOp(op, o);
      }
    }
  }

  lemma CurrentSetReadOk(log: seq<Write>, who: Who, h: Host, op: Op, status: Status, etag: Etag, value: Value)
    requires Plain(op) && op.code == RotateKeyOp && HoldsGrant(log, op) && op.grant.rec.b.res == op.res
    requires status == StOk ==> WroteAt(log, etag, SetKey(op.res, op.grant.rec.b.epoch), value)
    ensures TurnOk(log, who, op, CurrentSetRead(h, op, status, etag, value))
  {
    if status == StOk && value.Rec? && value.rec.b.kind == RecoverySet {
      assert HasRecoverySet(log, op.res, op.grant.rec.b.epoch);
      RotateKeyOk(log, who, h, op.(set_ := Held(value.rec, etag)));
    }
  }

  lemma SetReadOk(log: seq<Write>, who: Who, h: Host, op: Op, status: Status, etag: Etag, value: Value)
    requires Plain(op) && HoldsGrant(log, op) && Untouched(op)
    requires op.code == RecordSetOp || (op.IsRelease() && op.fields.Proven?)
    requires op.code == RecordSetOp ==>
               op.fields.RecordSetFields? && op.fields.setEpoch == op.audit.epoch && Admits(op.grant.rec, op.audit.epoch)
    requires op.code == RecoverOp ==> HoldsTicket(log, op)
    requires status == StOk ==> WroteAt(log, etag, SetKey(op.res, op.audit.epoch), value)
    ensures TurnOk(log, who, op, SetRead(h, op, status, etag, value))
  {
    if status == StOk && value.Rec? {
      var o := op.(set_ := Held(value.rec, etag));
      if op.code == RecordSetOp {
        RecordSetOk(log, who, h, o);
      } else {
        DecideOk(log, who, h, o);
      }
    }
  }

  lemma ChainReadOk(log: seq<Write>, who: Who, h: Host, op: Op, status: Status, etag: Etag, value: Value)
    requires Plain(op) && op.code == RenewOp && HoldsGrant(log, op) && op.fields.Proven? && Untouched(op)
    requires Typed(log)
    requires status == StOk ==> WroteAt(log, etag, ChainKey(op.res, AttachTicket(op)), value)
    ensures TurnOk(log, who, op, ChainRead(h, op, status, etag, value))
  {
    RenewOk(log, who, h, op);
    if status == StOk {
      RenewOk(log, who, h, op.(chain := ChainHead(DigestOf(value.rec), etag)));
    }
  }

  lemma DeviceReadOk(log: seq<Write>, who: Who, h: Host, op: Op, status: Status)
    requires Plain(op) && op.IsProven() && HoldsGrant(log, op) && op.fields.Proven? && Untouched(op)
    ensures TurnOk(log, who, op, DeviceRead(h, op, status))
  {
  }

  lemma TicketReadOk(log: seq<Write>, who: Who, h: Host, op: Op, status: Status, etag: Etag, value: Value)
    requires Plain(op) && op.code == RecoverOp && HoldsGrant(log, op) && op.fields.Proven? && Untouched(op)
    requires status == StOk ==> WroteAt(log, etag, TicketKey(op.res, AttachTicket(op)), value)
    ensures TurnOk(log, who, op, TicketRead(h, op, status, etag, value))
  {
  }

  lemma RotationStored(log: seq<Write>, who: Who, op: Op, deadlineMs: U64)
    requires Plain(op) && op.stage == PutSet && op.code == RotateKeyOp && OpOk(log, who, op)
    requires Wrote(log, who, SetKey(op.res, op.audit.epoch), Written(op.out))
    requires op.grant.rec.b.res == op.res
    ensures OpOk(log, who, op.(stage := CasGrant, deadlineMs := deadlineMs))
  {
    CreationIsStored(log, who, op);
  }

  lemma CreationIsStored(log: seq<Write>, who: Who, op: Op)
    requires op.stage == PutSet && op.code == RotateKeyOp && StageOk(log, who, op)
    requires Wrote(log, who, SetKey(op.res, op.audit.epoch), Written(op.out))
    ensures HasCreation(log, op.res, op.aux.value.b.epoch, op.aux.value.b.setId)
  {
  }

  lemma CreationReady(log: seq<Write>, who: Who, op: Op, deadlineMs: U64)
    requires Plain(op) && op.stage == PutGrant && OpOk(log, who, op)
    requires Wrote(log, who, GrantKey(op.res), Written(op.aux))
    ensures OpOk(log, who, op.(stage := PutSet, deadlineMs := deadlineMs))
  {
    assert CreationBacked(log, op.res, 1, op.out.value.b.setId);
  }

  lemma GrantSwappedOk(log: seq<Write>, who: Who, h: Host, op: Op, status: Status)
    requires op.stage == CasGrant && Plain(op) && StageOk(log, who, op)
    requires status == StOk ==> Wrote(log, who, GrantKey(op.res), Written(if op.code == RotateKeyOp then op.aux else op.out))
    ensures TurnOk(log, who, op, GrantSwapped(h, op, status))
  {
    if status == StOk {
      if op.code == EraseOp {
        ErasureIsStored(log, who, op);
        EraseNextOk(log, who, h, op.(cursor := 1));
        assert GrantSwapped(h, op, status) == EraseNext(h, op.(cursor := 1));
      } else if op.code == RetireEpochOp {
        RetirementIsStored(log, who, op);
        ReadsOldSet(log, who, h, op);
      }
    }
  }

  lemma ReadsOldSet(log: seq<Write>, who: Who, h: Host, op: Op)
    requires Plain(op) && op.code == RetireEpochOp && Dead(log, op.res, op.audit.epoch)
    ensures TurnOk(log, who, op, Send(h, op, GetOldSet))
  {
  }

  lemma ErasureIsStored(log: seq<Write>, who: Who, op: Op)
    requires Wrote(log, who, GrantKey(op.res), Written(op.out)) && op.out.Some? && op.out.value.b.kind == Erasure
    ensures WasErased(log, op.res)
  {
  }

  lemma RetirementIsStored(log: seq<Write>, who: Who, op: Op)
    requires Wrote(log, who, GrantKey(op.res), Written(op.out)) && op.out.Some? && IsGrant(op.out.value)
    requires op.audit.epoch < op.out.value.b.epoch && !Admits(op.out.value, op.audit.epoch)
    ensures Dead(log, op.res, op.audit.epoch)
  {
  }

  lemma RenewalStores(log: seq<Write>, who: Who, h: Host, op: Op)
    requires op.stage == ClaimReplay && Plain(op) && op.code == RenewOp && GrantedTo(log, op) && RenewalReady(log, op)
    requires op.auth.res == op.res && op.audit.antiReplay == op.auth.antiReplay
    requires Claimed(log, who, op.auth.antiReplay)
    ensures TurnOk(log, who, op, Send(h, op, PutChain))
  {
    LinkReady(log, who, op, SatAdd(h.nowMs, STAGE_TIMEOUT_MS));
  }

  lemma LinkReady(log: seq<Write>, who: Who, op: Op, deadlineMs: U64)
    requires Plain(op) && op.code == RenewOp && GrantedTo(log, op) && RenewalReady(log, op)
    requires op.auth.res == op.res && op.audit.antiReplay == op.auth.antiReplay
    requires Claimed(log, who, op.auth.antiReplay)
    ensures OpOk(log, who, op.(stage := PutChain, deadlineMs := deadlineMs))
  {
    assert RenewalReady(log, op.(stage := PutChain, deadlineMs := deadlineMs));
  }

  lemma ReplayAnsweredOk(log: seq<Write>, who: Who, h: Host, op: Op, status: Status)
    requires op.stage == ClaimReplay && Plain(op) && StageOk(log, who, op)
    requires status == StOk ==> Claimed(log, who, op.auth.antiReplay)
    ensures TurnOk(log, who, op, ReplayAnswered(h, op, status))
  {
    if status == StOk {
      if op.code == RecoverOp {
        ConsumeOk(log, who, h, op);
      } else if op.code == AttachOp {
        OrderSharesOk(log, who, h, op);
      } else {
        RenewalStores(log, who, h, op);
      }
    }
  }

  lemma TicketConsumedOk(log: seq<Write>, who: Who, h: Host, op: Op, status: Status)
    requires op.stage == ConsumeTicket && Plain(op) && StageOk(log, who, op)
    requires status == StOk ==> Wrote(log, who, TicketKey(op.res, AttachTicket(op)), Written(op.aux))
    ensures TurnOk(log, who, op, Stored(h, op, status))
  {
    if status == StOk {
      assert Spent(log, who, op.res, AttachTicket(op), op.auth.epoch);
      OrderSharesOk(log, who, h, op);
    }
  }

  lemma GrantStoredOk(log: seq<Write>, who: Who, h: Host, op: Op, status: Status)
    requires op.stage == PutGrant && Plain(op) && OpOk(log, who, op)
    requires status == StOk ==> Wrote(log, who, GrantKey(op.res), Written(op.aux))
    ensures TurnOk(log, who, op, Stored(h, op, status))
  {
    if status == StOk {
      CreationReady(log, who, op, SatAdd(h.nowMs, STAGE_TIMEOUT_MS));
    }
  }

  lemma SetStoredOk(log: seq<Write>, who: Who, h: Host, op: Op, status: Status)
    requires op.stage == PutSet && Plain(op) && OpOk(log, who, op)
    requires status == StOk ==> Wrote(log, who, SetKey(op.res, op.audit.epoch), Written(op.out))
    requires op.code == RotateKeyOp ==> op.grant.rec.b.res == op.res
    ensures TurnOk(log, who, op, Stored(h, op, status))
  {
    if status == StOk && op.code == RotateKeyOp {
      RotationStored(log, who, op, SatAdd(h.nowMs, STAGE_TIMEOUT_MS));
    }
  }

  lemma LastWriteOk(log: seq<Write>, who: Who, h: Host, op: Op, status: Status)
    requires op.stage == CasSet || op.stage == PutTicket || op.stage == DeleteSet || op.stage == PutChain
    requires Plain(op) && StageOk(log, who, op)
    requires op.stage == PutChain && status == StOk ==> Wrote(log, who, ChainKey(op.res, AttachTicket(op)), Written(op.out))
    ensures TurnOk(log, who, op, Stored(h, op, status))
  {
  }

  lemma SweepOk(log: seq<Write>, who: Who, h: Host, op: Op, status: Status, etag: Etag, value: Value)
    requires Plain(op) && op.code == EraseOp && WasErased(log, op.res)
    ensures TurnOk(log, who, op, SweepRead(h, op, status, etag, value))
  {
    if status == StNotFound {
      EraseNextOk(log, who, h, op.(cursor := SatInc(op.cursor)));
    } else {
      SweepDeletes(log, who, h, op.(set_ := HeldForDelete(value, etag)));
    }
  }

  lemma SweepDeletes(log: seq<Write>, who: Who, h: Host, op: Op)
    requires Plain(op) && op.code == EraseOp && WasErased(log, op.res)
    ensures TurnOk(log, who, op, Send(h, op, EraseDeleteSet))
  {
    ErasedIsDead(log, op.res, op.cursor);
  }

  lemma SweepDeletedOk(log: seq<Write>, who: Who, h: Host, op: Op, status: Status)
    requires Plain(op) && op.code == EraseOp && WasErased(log, op.res)
    ensures TurnOk(log, who, op, SweepDeleted(h, op, status))
  {
    EraseNextOk(log, who, h, op.(cursor := SatInc(op.cursor)));
  }

  lemma ErasedIsDead(log: seq<Write>, r: Resource, e: U32)
    requires WasErased(log, r)
    ensures Dead(log, r, e)
  {
  }

  lemma OldSetReadOk(log: seq<Write>, who: Who, h: Host, op: Op, status: Status, etag: Etag, value: Value)
    requires Plain(op) && op.code == RetireEpochOp && Dead(log, op.res, op.audit.epoch)
    ensures TurnOk(log, who, op, OldSetRead(h, op, status, etag, value))
  {
  }

  /** Any reply at a stage that reads. */
  lemma ReadOk(log: seq<Write>, who: Who, h: Host, op: Op, status: Status, etag: Etag, value: Value)
    requires StageRequest(op).Get?
    requires !AwaitsCustodians(op.stage) && op.stage != WriteAudit
    requires Typed(log) && Plain(op) && StageOk(log, who, op)
    requires status == StOk ==> WroteAt(log, etag, StageRequest(op).key, value)
    ensures TurnOk(log, who, op, Advance(h, op, status, etag, value))
  {
    match op.stage
    case GetGrant => GrantReadOk(log, who, h, op, status, etag, value);
    case GetCurrentSet => CurrentSetReadOk(log, who, h, op, status, etag, value);
    case GetSet => SetReadOk(log, who, h, op, status, etag, value);
    case GetChain => ChainReadOk(log, who, h, op, status, etag, value);
    case GetDevice => DeviceReadOk(log, who, h, op, status);
    case GetTicket => TicketReadOk(log, who, h, op, status, etag, value);
    case EraseGetSet => SweepOk(log, who, h, op, status, etag, value);
    case GetOldSet => OldSetReadOk(log, who, h, op, status, etag, value);
  }

  /** Any reply at a stage that creates. */
  lemma PutOk(log: seq<Write>, who: Who, h: Host, op: Op, status: Status, etag: Etag, value: Value)
    requires op.stage == ClaimReplay || op.stage == PutGrant || op.stage == PutSet
    requires Typed(log) && Plain(op) && OpOk(log, who, op)
    requires AckOk(log, Ack(who, StageRequest(op), status, etag, value))
    ensures TurnOk(log, who, op, Advance(h, op, status, etag, value))
  {
    match op.stage
    case ClaimReplay => ReplayAnsweredOk(log, who, h, op, status);
    case PutGrant => GrantStoredOk(log, who, h, op, status);
    case PutSet => SetStoredOk(log, who, h, op, status);
  }

  /** Any reply at a stage that replaces or deletes, or writes last. */
  lemma SwapOk(log: seq<Write>, who: Who, h: Host, op: Op, status: Status, etag: Etag, value: Value)
    requires op.stage == ConsumeTicket || op.stage == CasGrant || op.stage == EraseDeleteSet || op.stage == CasSet
             || op.stage == PutTicket || op.stage == DeleteSet || op.stage == PutChain
    requires Plain(op) && OpOk(log, who, op)
    requires AckOk(log, Ack(who, StageRequest(op), status, etag, value))
    ensures TurnOk(log, who, op, Advance(h, op, status, etag, value))
  {
    hide TurnOk, ReqOk, GrantSwapped, Stored, SweepDeleted, GrantedTo, RenewalReady, SpentSome, WasErased, Dead, IsGrant;
    match op.stage
    case ConsumeTicket => TicketConsumedOk(log, who, h, op, status);
    case CasGrant => GrantSwappedOk(log, who, h, op, status);
    case EraseDeleteSet => SweepDeletedOk(log, who, h, op, status);
    case CasSet | PutTicket | DeleteSet | PutChain => LastWriteOk(log, who, h, op, status);
  }

  lemma AdvanceOk(log: seq<Write>, who: Who, h: Host, op: Op, status: Status, etag: Etag, value: Value)
    requires LogOk(log) && Plain(op) && OpOk(log, who, op) && AckOk(log, Ack(who, StageRequest(op), status, etag, value))
    requires !AwaitsCustodians(op.stage) && op.stage != WriteAudit
    ensures TurnOk(log, who, op, Advance(h, op, status, etag, value))
  {
    if StageRequest(op).Get? {
      ReadOk(log, who, h, op, status, etag, value);
    } else if op.stage == ClaimReplay || op.stage == PutGrant || op.stage == PutSet {
      PutOk(log, who, h, op, status, etag, value);
    } else {
      SwapOk(log, who, h, op, status, etag, value);
    }
  }

  // ── Whole calls ────────────────────────────────────────────────────────

  /** What a call that concerned one operation leaves. */
  ghost predicate OutcomeOk(log: seq<Write>, who: Who, corr: nat, caller: nat, r: Outcome) {
    && (r.op.Some? ==>
          var o := r.op.value;
          && o.corr == corr && o.caller == caller
          && (o.refusal.None? ==>
                && OpOk(log, who, o)
                && r.sends == if AwaitsCustodians(o.stage) then [] else [StageRequest(o)])
          && (o.refusal.Some? ==> o.stage == WriteAudit && o.out.None? && o.envs == []))
    && |r.sends| <= 1
    && (forall i :: 0 <= i < |r.sends| ==> ReqOk(log, who, r.sends[i]))
    && (forall o :: o in r.orders ==> OrderOk(log, who, o))
    && (r.op.Some? ==> r.replies == [])
    && (r.op.None? ==> |r.replies| == 1 && r.replies[0].caller == caller)
    && (forall i :: 0 <= i < |r.replies| ==> ReplyOk(log, Some(who), r.replies[i]))
  }

  lemma SettleOk(log: seq<Write>, who: Who, h: Host, op: Op, t: Turn)
    requires TurnOk(log, who, op, t)
    ensures OutcomeOk(log, who, op.corr, op.caller, Settle(h, t))
  {
    if t.verdict.Done? {
      ConcludedOk(log, who, h, t.verdict.op);
    }
  }

  /** A decision goes to its audit write as one it may allow. */
  lemma DecidedStays(log: seq<Write>, who: Who, h: Host, op: Op)
    requires Decided(log, who, op) && Plain(op)
    ensures Decided(log, who, Conclude(h, op, None))
  {
    hide Claimed, SpentSome, Granted, BundleOf, Wrote;
  }

  lemma ConcludedOk(log: seq<Write>, who: Who, h: Host, op: Op)
    requires Decided(log, who, op) && Plain(op)
    ensures OutcomeOk(log, who, op.corr, op.caller, Finish(h, op, None))
  {
    DecidedStays(log, who, h, op);
    hide Decided, OrderOk, Wrote, AuditBacked;
  }

  /** An answer to the audit write. */
  lemma AuditAnswerOk(log: seq<Write>, who: Who, h: Host, op: Op, status: Status, etag: Etag, value: Value)
    requires op.stage == WriteAudit
    requires op.refusal.None? ==> OpOk(log, who, op) && AckOk(log, Ack(who, StageRequest(op), status, etag, value))
    requires op.refusal.Some? ==> op.out.None? && op.envs == []
    ensures OutcomeOk(log, who, op.corr, op.caller, OnLedgerOp(h, op, status, etag, value))
  {
    if op.refusal.None? && op.IsProven() && status == StOk {
      assert Audited(log, who, op.code, op.out.value);
    }
  }

  lemma OnLedgerOpOk(log: seq<Write>, who: Who, h: Host, op: Op, status: Status, etag: Etag, value: Value)
    requires LogOk(log) && !AwaitsCustodians(op.stage)
    requires op.refusal.None? ==> OpOk(log, who, op) && AckOk(log, Ack(who, StageRequest(op), status, etag, value))
    requires op.refusal.Some? ==> op.stage == WriteAudit && op.out.None? && op.envs == []
    ensures OutcomeOk(log, who, op.corr, op.caller, OnLedgerOp(h, op, status, etag, value))
  {
    if op.stage == WriteAudit {
      AuditAnswerOk(log, who, h, op, status, etag, value);
    } else {
      AdvanceOk(log, who, h, op, status, etag, value);
      SettleOk(log, who, h, op, Advance(h, op, status, etag, value));
    }
  }

  lemma OnCustodianOpOk(log: seq<Write>, who: Who, h: Host, op: Op, custodian: nat, ok: bool, env: Envelope)
    requires AwaitsCustodians(op.stage) && op.refusal.None? && OpOk(log, who, op)
    ensures OutcomeOk(log, who, op.corr, op.caller, OnCustodianOp(h, op, custodian, ok, env))
  {
    if op.stage == EraseCustodians {
      EraseResultOk(log, who, op, custodian, ok);
      SettleOk(log, who, h, op, EraseResult(op, custodian, ok));
    } else {
      CustodianResultOk(log, who, h, op, custodian, ok, env);
      SettleOk(log, who, h, op, CustodianResult(h, op, custodian, ok, env));
    }
  }

  lemma OnExpiredOpOk(log: seq<Write>, who: Who, h: Host, op: Op)
    requires op.refusal.None? ==> OpOk(log, who, op)
    requires op.refusal.Some? ==> op.stage == WriteAudit && op.out.None? && op.envs == []
    ensures OutcomeOk(log, who, op.corr, op.caller, OnExpiredOp(h, op))
  {
    if op.stage != WriteAudit {
      SettleOk(log, who, h, op, Refuse(op, if AwaitsCustodians(op.stage) then CustodianRefused else LedgerUnavailable));
    }
  }
}
