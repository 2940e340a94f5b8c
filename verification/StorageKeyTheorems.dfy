/** What holds in every state any run of the system reaches. */
module StorageKeyTheorems {
  import opened Basics
  import opened StorageKey
  import opened Ledger
  import opened StorageKeyService
  import opened StorageKeySystem
  import opened StorageKeyInvariants
  import opened StorageKeyTurns
  import opened StorageKeyLog
  import opened StorageKeySteps
  import opened StorageKeyRuns

  /** Some run ends in this state. */
  ghost predicate Reached(s: System) {
    exists actions :: IsRun(actions) && After(actions) == s
  }

  /** Some run passes through `s` and ends in `t`. */
  ghost predicate Later(s: System, t: System) {
    exists actions, more :: IsRun(actions) && IsRun(actions + more) && After(actions) == s && After(actions + more) == t
  }

  lemma ReachedIsOk(s: System)
    requires Reached(s)
    ensures Inv(s)
  {
    var actions :| IsRun(actions) && After(actions) == s;
    RunKeeps(actions);
  }

  lemma StoreIsOk(s: System)
    requires Reached(s)
    ensures StoreOk(s.store)
  {
    ReachedIsOk(s);
  }

  lemma LogIsOk(s: System)
    requires Reached(s)
    ensures Chained(s.store.log) && Typed(s.store.log) && Ordered(s.store.log) && TrailBacked(s.store.log)
  {
    ReachedIsOk(s);
  }

  // ── One key's history ──────────────────────────────────────────────────

  /** The last write to a key before `j`, when `i` is one. */
  lemma {:induction false} LastBefore(log: seq<Write>, i: nat, j: nat) returns (p: nat)
    requires i < j < |log| && log[i].key == log[j].key
    ensures i <= p && Follows(log, p, j)
    decreases j - i
  {
    if m: nat :| i < m < j && log[m].key == log[j].key {
      p := LastBefore(log, m, j);
    } else {
      p := i;
    }
  }

  /** The value before a later one of its key allowed it. */
  lemma SomethingPreceded(log: seq<Write>, i: nat, j: nat)
    requires Chained(log) && i < j < |log| && log[i].key == log[j].key && Permanent(log[i].key)
    ensures exists p: nat :: i <= p < j && log[p].key == log[j].key && Succ(log[j].key, log[p].value, log[j].value)
  {
    var p := LastBefore(log, i, j);
  }

  // ── Recovery sets ──────────────────────────────────────────────────────

  ghost predicate SetStands(s: Storage, r: Resource, e: U32) {
    && SetKey(r, e) in s.ledger
    && s.ledger[SetKey(r, e)].value.Rec?
    && s.ledger[SetKey(r, e)].value.rec.b.res == r
    && s.ledger[SetKey(r, e)].value.rec.b.epoch == e
  }

  /** Whatever interleaving of creations, recordings, rotations, retirements
      and erasures led here, a live grant has the recovery set of every epoch
      it retains under that epoch's key; and the set of its own epoch, which
      every epoch but the first has from the start, carries its set id. */
  lemma LiveGrantHasItsSets(s: System, r: Resource, g: Record)
    requires Reached(s) && CurrentGrant(s.store, r) == Some(g) && g.b.kind == Grant
    ensures forall e :: e in Retained(g) ==>
              SetStands(s.store, r, e) && s.store.ledger[SetKey(r, e)].value.rec.b.kind == RecoverySet
    ensures g.b.epoch > 1 ==> SetKey(r, g.b.epoch) in s.store.ledger
    ensures SetKey(r, g.b.epoch) in s.store.ledger ==>
              SetStands(s.store, r, g.b.epoch) && s.store.ledger[SetKey(r, g.b.epoch)].value.rec.b.setId == g.b.setId
  {
    StoreIsOk(s);
    StoreHasSets(s.store, r, g);
  }

  lemma StoreHasSets(s: Storage, r: Resource, g: Record)
    requires StoreOk(s) && CurrentGrant(s, r) == Some(g) && g.b.kind == Grant
    ensures forall e :: e in Retained(g) ==> SetStands(s, r, e) && s.ledger[SetKey(r, e)].value.rec.b.kind == RecoverySet
    ensures g.b.epoch > 1 ==> SetKey(r, g.b.epoch) in s.ledger
    ensures SetKey(r, g.b.epoch) in s.ledger ==>
              SetStands(s, r, g.b.epoch) && s.ledger[SetKey(r, g.b.epoch)].value.rec.b.setId == g.b.setId
  {
    hide Chained, Ordered, TrailBacked, SetsAhead, SetsStay, IsGrant, RetainedOf;
    LatestIsTyped(s, r);
    assert SetsOk(s, r, g);
    forall e: U32 | SetKey(r, e) in s.ledger ensures SetStands(s, r, e) {
      assert WroteAt(s.log, s.ledger[SetKey(r, e)].etag, SetKey(r, e), s.ledger[SetKey(r, e)].value);
    }
  }

  /** What takes a key out of the ledger is a served delete of it. */
  lemma OnlyDeletesRemove(s: System, a: Action, k: Key)
    requires Enabled(s, a) && k in s.store.ledger && k !in Apply(s, a).store.ledger
    ensures a.Serve? && a.uid in s.net && s.net[a.uid].Ask? && s.net[a.uid].req.Delete? && s.net[a.uid].req.key == k
  {
  }

  /** A step that takes a key out of the ledger takes a recovery set out, and
      by then the resource is erased or its grant, further on, no longer
      admits the epoch. */
  lemma SetsGoOnlyWhenDead(s: System, a: Action, k: Key)
    requires Reached(s) && Enabled(s, a) && k in s.store.ledger && k !in Apply(s, a).store.ledger
    ensures k.SetKey? && CurrentGrant(s.store, k.res).Some?
    ensures var g := CurrentGrant(s.store, k.res).value;
            g.b.kind == Erasure || (g.b.kind == Grant && k.epoch < g.b.epoch && !Admits(g, k.epoch))
  {
    OnlyDeletesRemove(s, a, k);
    DeletesAreOfDeadSets(s, a.uid);
    StoreIsOk(s);
    DeathIsNow(s.store, k.res, k.epoch);
  }

  lemma DeletesAreOfDeadSets(s: System, u: nat)
    requires Reached(s) && u in s.net && s.net[u].Ask? && s.net[u].req.Delete?
    ensures s.net[u].req.key.SetKey? && Dead(s.store.log, s.net[u].req.key.res, s.net[u].req.key.epoch)
  {
    ReachedIsOk(s);
    AskIsSafe(s, u);
  }

  lemma DeathIsNow(s: Storage, r: Resource, e: U32)
    requires StoreOk(s) && Dead(s.log, r, e)
    ensures CurrentGrant(s, r).Some?
    ensures var g := CurrentGrant(s, r).value;
            g.b.kind == Erasure || (g.b.kind == Grant && e < g.b.epoch && !Admits(g, e))
  {
    GrantExists(s, r);
    LatestIsTyped(s, r);
    var g := CurrentGrant(s, r).value;
    if g.b.kind == Grant { DeadNow(s, r, e, g); }
  }

  lemma LatestIsTyped(s: Storage, r: Resource)
    requires Typed(s.log) && LedgerOk(s) && GrantKey(r) in s.ledger
    ensures CurrentGrant(s, r).Some? && CurrentGrant(s, r).value.b.res == r
    ensures IsGrant(CurrentGrant(s, r).value) || CurrentGrant(s, r).value.b.kind == Erasure
  {
    assert WroteAt(s.log, s.ledger[GrantKey(r)].etag, GrantKey(r), s.ledger[GrantKey(r)].value);
  }

  // ── Audit before the bundle ────────────────────────────────────────────

  ghost predicate IsProvenCode(c: OpCode) { c == AttachOp || c == RecoverOp || c == RenewOp }

  /** The entry at `i` allows `code` for `rec`, and what had to come first did:
      the claim of its anti-replay id; for a recovery a ticket used for its
      resource and epoch; for a renewal its place in the chain. */
  ghost predicate TrailEntry(log: seq<Write>, i: nat, who: Who, code: OpCode, rec: Record) {
    && i < |log| && log[i].writer == ByOp(who) && log[i].key.AuditKey? && log[i].value.AuditEntry?
    && log[i].value.audit.op == code && log[i].value.audit.refusal.None?
    && log[i].value.audit.record == DigestOf(rec)
    && Claimed(log[..i], who, rec.b.antiReplay)
    && (code == RecoverOp ==> SpentSome(log[..i], who, rec.b))
    && (code == RenewOp ==> Wrote(log[..i], who, ChainKey(rec.b.res, ChainId(rec)), Rec(rec)))
  }

  /** Every reply that carries a proven record was preceded in the ledger by
      an audit entry of its own operation naming that very record, itself
      preceded by the claim and the ticket; and a release's bundle is the
      record's two envelopes. An unaudited reply carries neither. */
  lemma AuditedBeforeHandedOut(s: System, a: Answer)
    requires Reached(s) && a in s.answers
    ensures a.reply.bundle != [] ==> a.reply.record.Some? && (a.reply.code == AttachOp || a.reply.code == RecoverOp)
    ensures IsProvenCode(a.reply.code) && a.reply.record.Some? ==>
              && a.reply.audited && a.reply.refusal.None? && a.from.Some?
              && (exists i: nat :: TrailEntry(s.store.log, i, a.from.value, a.reply.code, a.reply.record.value))
              && (a.reply.code != RenewOp ==> BundleOf(a.reply.record.value, a.reply.bundle))
  {
    ReachedIsOk(s);
    assert ReplyOk(s.store.log, a.from, a.reply);
    if IsProvenCode(a.reply.code) && a.reply.record.Some? {
      TrailFor(s.store.log, a.from.value, a.reply.code, a.reply.record.value);
    }
  }

  lemma TrailFor(log: seq<Write>, who: Who, code: OpCode, rec: Record)
    requires TrailBacked(log) && IsProvenCode(code) && Audited(log, who, code, rec)
    ensures exists i: nat :: TrailEntry(log, i, who, code, rec)
  {
    var i: nat :| i < |log| && log[i].writer == ByOp(who) && log[i].key.AuditKey?
      && log[i].value.AuditEntry? && log[i].value.audit.refusal.None? && log[i].value.audit.op == code
      && log[i].value.audit.record == DigestOf(rec);
    assert AuditBacked(log[..i], who, log[i].value.audit);
    assert TrailEntry(log, i, who, code, rec);
  }

  /** Every custodian order, and every record handed out, stands on a grant
      the ledger held that names the record's own device and was not revoked
      (a recovery stands on its ticket instead), admitted the epoch and
      allowed the lifetime, and for a release on that epoch's recorded set. */
  lemma NothingUngranted(s: System)
    requires Reached(s)
    ensures forall o :: o in s.orders && o.order.RewrapOrder? ==>
              Granted(s.store.log, o.order.record.b, o.order.record.names.device)
    ensures forall a :: a in s.answers && IsProvenCode(a.reply.code) && a.reply.record.Some? ==>
              Granted(s.store.log, a.reply.record.value.b, a.reply.record.value.names.device)
  {
    ReachedIsOk(s);
    forall o | o in s.orders && o.order.RewrapOrder?
      ensures Granted(s.store.log, o.order.record.b, o.order.record.names.device)
    {
      assert OrderOk(s.store.log, o.who, o.order);
    }
    forall a | a in s.answers && IsProvenCode(a.reply.code) && a.reply.record.Some?
      ensures Granted(s.store.log, a.reply.record.value.b, a.reply.record.value.names.device)
    {
      assert ReplyOk(s.store.log, a.from, a.reply);
    }
  }

  // ── Grant histories ────────────────────────────────────────────────────

  /** Successive grants of one resource: the generation rises by one (modulo
      2^32), the epoch by none or one, and what is retained stays ascending,
      below the epoch and at most eight long. */
  lemma GrantsSucceed(s: System, i: nat, j: nat, a: Record, b: Record)
    requires Reached(s) && i < j < |s.store.log| && s.store.log[j].key.GrantKey? && Follows(s.store.log, i, j)
    requires s.store.log[i].value == Rec(a) && s.store.log[j].value == Rec(b)
    ensures GrantSucc(a, b) && Advances(a, b) && RetainsWell(b)
  {
    LogIsOk(s);
    GrantsSucceedIn(s.store.log, i, j, a, b);
    GrantStep(a, b);
  }

  ghost predicate Advances(a: Record, b: Record) {
    && b.b.generation == (a.b.generation + 1) % 0x1_0000_0000
    && a.b.epoch <= b.b.epoch <= a.b.epoch + 1
  }

  ghost predicate RetainsWell(rec: Record) {
    |Retained(rec)| <= MAX_RETAINED_EPOCHS && Ascending(Retained(rec), rec.b.epoch)
  }

  lemma GrantsSucceedIn(log: seq<Write>, i: nat, j: nat, a: Record, b: Record)
    requires Chained(log) && Follows(log, i, j) && log[j].key.GrantKey? && log[i].value == Rec(a) && log[j].value == Rec(b)
    ensures GrantSucc(a, b)
  {
    assert Succ(log[j].key, Rec(a), Rec(b));
  }

  lemma GrantStep(a: Record, b: Record)
    requires GrantSucc(a, b)
    ensures Advances(a, b) && RetainsWell(b)
  {
    if IsGrant(b) { RetainedIsAscending(b); }
  }

  /** An epoch a grant has left behind, and no longer admits, is admitted by
      no later grant. */
  lemma RetiredStaysRetired(s: System, i: nat, j: nat, a: Record, b: Record, e: U32)
    requires Reached(s) && i <= j < |s.store.log|
    requires s.store.log[i].key.GrantKey? && s.store.log[i].key == s.store.log[j].key
    requires s.store.log[i].value == Rec(a) && s.store.log[j].value == Rec(b)
    requires e <= a.b.epoch && !Admits(a, e)
    ensures !Admits(b, e)
  {
    LogIsOk(s);
    OrderedAt(s.store.log, i, j);
  }

  // ── Erasure is the end ─────────────────────────────────────────────────

  /** What has a successor is no erasure. */
  lemma ErasureIsLast(log: seq<Write>, i: nat, j: nat)
    requires Chained(log) && Ordered(log) && Typed(log) && i < j < |log|
    requires log[i].key.GrantKey? && log[j].key == log[i].key && log[i].value.Rec?
    ensures log[i].value.rec.b.kind != Erasure
  {
    SomethingPreceded(log, i, j);
    var p: nat :| i <= p < j && log[p].key == log[j].key && Succ(log[j].key, log[p].value, log[j].value);
    OrderedAt(log, i, p);
  }

  /** The resource's grant key holds an erasure. */
  ghost predicate ErasedNow(s: Storage, r: Resource) {
    CurrentGrant(s, r).Some? && CurrentGrant(s, r).value.b.kind == Erasure
  }

  lemma LogGrows(s: System, a: Action)
    requires Enabled(s, a)
    ensures Grows(s.store.log, Apply(s, a).store.log)
  {
  }

  /** Along a run the log only grows. */
  lemma {:induction false} RunGrows(actions: seq<Action>, more: seq<Action>)
    requires IsRun(actions) && IsRun(actions + more)
    ensures Grows(After(actions).store.log, After(actions + more).store.log)
    decreases |more|
  {
    if more == [] {
      assert actions + more == actions;
    } else {
      var less := more[..|more| - 1];
      assert (actions + more)[..|actions + more| - 1] == actions + less;
      RunGrows(actions, less);
      LogGrows(After(actions + less), (actions + more)[|actions + more| - 1]);
    }
  }

  /** Once erased, a resource's entry is the same for ever, etag and all. */
  lemma ErasureIsForEver(s: System, t: System, r: Resource)
    requires Later(s, t) && ErasedNow(s.store, r)
    ensures GrantKey(r) in t.store.ledger && t.store.ledger[GrantKey(r)] == s.store.ledger[GrantKey(r)]
  {
    var actions, more :| IsRun(actions) && IsRun(actions + more) && After(actions) == s && After(actions + more) == t;
    RunGrows(actions, more);
    StoreIsOk(s);
    StoreIsOk(t);
    EntryOutlives(s.store, t.store, r);
  }

  lemma EntryOutlives(s: Storage, t: Storage, r: Resource)
    requires StoreOk(s) && StoreOk(t) && Grows(s.log, t.log) && ErasedNow(s, r)
    ensures GrantKey(r) in t.ledger && t.ledger[GrantKey(r)] == s.ledger[GrantKey(r)]
  {
    var i := s.ledger[GrantKey(r)].etag;
    assert WroteAt(s.log, i, GrantKey(r), s.ledger[GrantKey(r)].value);
    LastWriteStands(t, GrantKey(r), i);
    if t.ledger[GrantKey(r)].etag != i {
      ErasureIsLast(t.log, i, t.ledger[GrantKey(r)].etag);
    }
  }

  /** A read the ledger serves once the resource is erased returns the
      erasure, whoever asked and whenever the reply is delivered. */
  lemma ReadsReturnTheErasure(s: System, t: System, r: Resource, u: nat)
    requires Later(s, t) && ErasedNow(s.store, r)
    requires Enabled(t, Serve(u, Honest)) && t.net[u].req == Get(GrantKey(r))
    ensures var p := Apply(t, Serve(u, Honest)).net[u];
            p.Ack? && p.status == StOk && p.value == Rec(CurrentGrant(s.store, r).value)
  {
    ErasureIsForEver(s, t, r);
  }

  /** And an operation other than an erasure that reads one is refused: it
      sends nothing but its own audit entry, and orders nothing. */
  lemma ReadingAnErasureRefuses(h: Host, op: Op, etag: Etag, rec: Record)
    requires op.stage == GetGrant && op.code != EraseOp && rec.b.kind == Erasure
    ensures var r := OnLedgerOp(h, op, StOk, etag, Rec(rec));
            var refusal := if rec in h.signed then Erased else BadSignature;
            && r.orders == [] && r.signs == {}
            && (r.op.Some? ==> r.op.value.stage == WriteAudit && r.op.value.refusal == Some(refusal)
                               && r.op.value.out.None? && r.sends == [StageRequest(r.op.value)])
            && (r.op.None? ==> r.sends == [] && |r.replies| == 1 && r.replies[0].refusal == Some(refusal)
                               && r.replies[0].record.None? && r.replies[0].bundle == [])
  {
  }

  // ── Renewal chains ─────────────────────────────────────────────────────

  /** How many renewals lie between a record and its release. */
  ghost function Depth(rec: Record): nat {
    if rec.b.kind == Renewal && |rec.items| == 2 && rec.items[1].DigestItem? && rec.items[1].digest.DigestOf?
    then 1 + Depth(rec.items[1].digest.rec) else 0
  }

  lemma SameAttachmentFollows(a: Record, b: Record, c: Record)
    requires SameAttachment(a, b) && SameAttachment(b, c)
    ensures SameAttachment(a, c)
  {
  }

  /** Along one attachment's chain every record lies deeper than those before,
      and nothing that identifies what was released changes. */
  lemma {:induction false} ChainRuns(log: seq<Write>, i: nat, j: nat)
    requires Chained(log) && Typed(log) && i <= j < |log| && log[i].key == log[j].key && log[i].key.ChainKey?
    ensures log[i].value.Rec? && log[j].value.Rec?
    ensures SameAttachment(log[i].value.rec, log[j].value.rec)
    ensures i < j ==> Depth(log[i].value.rec) < Depth(log[j].value.rec)
    decreases j
  {
    hide Chained, Typed, Follows, SameAttachment, Depth;
    if i < j {
      var p := LastBefore(log, i, j);
      FollowsIs(log, p, j);
      ChainStep(log, p, j);
      ChainRuns(log, i, p);
      SameAttachmentFollows(log[i].value.rec, log[p].value.rec, log[j].value.rec);
    } else {
      ChainHasRecords(log, j);
      SameAsItself(log[j].value.rec);
    }
  }

  lemma FollowsIs(log: seq<Write>, i: nat, j: nat)
    requires Follows(log, i, j)
    ensures i < j < |log| && log[i].key == log[j].key
  {
  }

  lemma ChainHasRecords(log: seq<Write>, j: nat)
    requires Typed(log) && j < |log| && log[j].key.ChainKey?
    ensures log[j].value.Rec?
  {
  }

  lemma SameAsItself(a: Record)
    ensures SameAttachment(a, a)
  {
  }

  /** From one write of a chain to the next. */
  lemma ChainStep(log: seq<Write>, p: nat, j: nat)
    requires Chained(log) && Follows(log, p, j) && log[j].key.ChainKey?
    ensures log[p].value.Rec? && log[j].value.Rec?
    ensures SameAttachment(log[p].value.rec, log[j].value.rec)
    ensures Depth(log[j].value.rec) == 1 + Depth(log[p].value.rec)
  {
    Follower(log, p, j);
    hide Chained, Follows;
    RenewsOne(log[p].value.rec, log[j].value.rec);
  }

  lemma RenewsOne(a: Record, b: Record)
    requires IsRenewalOf(b, a)
    ensures SameAttachment(a, b) && Depth(b) == 1 + Depth(a)
  {
  }

  lemma Follower(log: seq<Write>, i: nat, j: nat)
    requires Chained(log) && Follows(log, i, j) && Permanent(log[j].key)
    ensures Succ(log[j].key, log[i].value, log[j].value)
  {
  }

  /** Each link renews some record of the same attachment. */
  lemma LinkRenews(log: seq<Write>, j: nat)
    requires Chained(log) && Typed(log) && j < |log| && log[j].key.ChainKey?
    ensures log[j].value.Rec? && Renewed(log[j].value.rec).Some?
    ensures IsRenewalOf(log[j].value.rec, Renewed(log[j].value.rec).value)
  {
    if i: nat :| i < j && log[i].key == log[j].key {
      var p := LastBefore(log, i, j);
      assert Succ(log[j].key, log[p].value, log[j].value);
    } else {
      assert IsFirst(log, j);
    }
  }

  /** The renewals of one attachment form one chain: each names the one it
      replaced, and the first names the release. */
  lemma RenewalsFormOneChain(s: System, j: nat)
    requires Reached(s) && j < |s.store.log| && s.store.log[j].key.ChainKey?
    ensures s.store.log[j].value.Rec? && Renewed(s.store.log[j].value.rec).Some?
    ensures IsRenewalOf(s.store.log[j].value.rec, Renewed(s.store.log[j].value.rec).value)
    ensures IsFirst(s.store.log, j) ==> Renewed(s.store.log[j].value.rec).value.b.kind == Attachment
    ensures forall i: nat :: Follows(s.store.log, i, j) ==>
              s.store.log[i].value.Rec? && Renewed(s.store.log[j].value.rec) == Some(s.store.log[i].value.rec)
  {
    LogIsOk(s);
    LinkRenews(s.store.log, j);
    forall i: nat | Follows(s.store.log, i, j)
      ensures s.store.log[i].value.Rec? && Renewed(s.store.log[j].value.rec) == Some(s.store.log[i].value.rec)
    {
      assert Succ(s.store.log[j].key, s.store.log[i].value, s.store.log[j].value);
    }
  }

  lemma AttachmentNeverChanges(s: System, i: nat, j: nat, a: Record, b: Record)
    requires Reached(s) && i <= j < |s.store.log|
    requires s.store.log[i].key.ChainKey? && s.store.log[i].key == s.store.log[j].key
    requires s.store.log[i].value == Rec(a) && s.store.log[j].value == Rec(b)
    ensures SameAttachment(a, b)
  {
    LogIsOk(s);
    ChainRuns(s.store.log, i, j);
  }

  /** Two links never renew the same record. */
  lemma LinksDiffer(log: seq<Write>, i: nat, j: nat)
    requires Chained(log) && Typed(log) && i < j < |log| && log[i].key.ChainKey? && log[j].key.ChainKey?
    ensures log[i].value.Rec? && log[j].value.Rec?
    ensures Renewed(log[i].value.rec) != Renewed(log[j].value.rec)
  {
    LinkRenews(log, i);
    LinkRenews(log, j);
    if Renewed(log[i].value.rec) == Renewed(log[j].value.rec) {
      assert log[i].key == log[j].key;
      ChainRuns(log, i, j);
    }
  }

  /** No record is renewed twice: two renewals answered with a record, that
      renew the same one, came from one operation and are the same. */
  lemma NothingIsRenewedTwice(s: System, a: Answer, b: Answer)
    requires Reached(s) && a in s.answers && b in s.answers
    requires a.reply.code == b.reply.code == RenewOp && a.reply.record.Some? && b.reply.record.Some?
    requires Renewed(a.reply.record.value) == Renewed(b.reply.record.value)
    ensures a.from == b.from && a.reply.record == b.reply.record
  {
    hide Chained, Typed, Ordered, TrailBacked, Renewed, Reached;
    LogIsOk(s);
    var i := RenewalPlace(s, a);
    var j := RenewalPlace(s, b);
    if i < j { LinksDiffer(s.store.log, i, j); }
    if j < i { LinksDiffer(s.store.log, j, i); }
  }

  /** Where a renewal answered with a record stands in the log. */
  lemma RenewalPlace(s: System, a: Answer) returns (i: nat)
    requires Reached(s) && a in s.answers && a.reply.code == RenewOp && a.reply.record.Some?
    ensures a.from.Some? && i < |s.store.log| && s.store.log[i].key.ChainKey?
    ensures s.store.log[i].writer == ByOp(a.from.value) && s.store.log[i].value == Rec(a.reply.record.value)
  {
    ReachedIsOk(s);
    assert ReplyOk(s.store.log, a.from, a.reply);
    var k := ChainKey(a.reply.record.value.b.res, ChainId(a.reply.record.value));
    i :| i < |s.store.log| && s.store.log[i] == Write(k, Rec(a.reply.record.value), ByOp(a.from.value));
  }

  // ── Single use ─────────────────────────────────────────────────────────

  /** An anti-replay id is claimed by at most one operation, ever. */
  lemma ClaimedOnce(log: seq<Write>, a: Who, b: Who, id: Id)
    requires Chained(log) && Claimed(log, a, id) && Claimed(log, b, id)
    ensures a == b
  {
    var i: nat :| i < |log| && log[i] == Write(ReplayKey(id), Claim, ByOp(a));
    var j: nat :| j < |log| && log[j] == Write(ReplayKey(id), Claim, ByOp(b));
    if i < j { SomethingPreceded(log, i, j); }
    if j < i { SomethingPreceded(log, j, i); }
  }

  /** A ticket written again was not used. */
  lemma {:induction false} UsedTicketIsLast(log: seq<Write>, i: nat, j: nat)
    requires Chained(log) && i < j < |log| && log[i].key.TicketKey? && log[i].key == log[j].key && log[i].value.Rec?
    ensures !log[i].value.rec.b.consumed
    decreases j
  {
    hide Chained;
    var p := LastBefore(log, i, j);
    Follower(log, p, j);
    if i < p { UsedTicketIsLast(log, i, p); }
  }

  lemma UsedOnce(log: seq<Write>, i: nat, j: nat)
    requires Chained(log) && i < |log| && j < |log| && log[i].key.TicketKey? && log[i].key == log[j].key
    requires log[i].value.Rec? && log[j].value.Rec? && log[i].value.rec.b.consumed && log[j].value.rec.b.consumed
    ensures i == j
  {
    if i < j { UsedTicketIsLast(log, i, j); }
    if j < i { UsedTicketIsLast(log, j, i); }
  }

  /** A ticket is used by at most one operation, for the epoch it was for. */
  lemma SpentOnce(log: seq<Write>, a: Who, b: Who, r: Resource, t: Id, e: U32, f: U32)
    requires Chained(log) && Spent(log, a, r, t, e) && Spent(log, b, r, t, f)
    ensures a == b && e == f
  {
    var i := SpentAt(log, a, r, t, e);
    var j := SpentAt(log, b, r, t, f);
    UsedOnce(log, i, j);
  }

  lemma SpentAt(log: seq<Write>, a: Who, r: Resource, t: Id, e: U32) returns (i: nat)
    requires Spent(log, a, r, t, e)
    ensures i < |log| && log[i].writer == ByOp(a) && log[i].key == TicketKey(r, t)
    ensures log[i].value.Rec? && log[i].value.rec.b.consumed && log[i].value.rec.b.epoch == e
  {
    i :| i < |log| && log[i].writer == ByOp(a) && log[i].key == TicketKey(r, t)
      && log[i].value.Rec? && log[i].value.rec.b.consumed && log[i].value.rec.b.epoch == e;
  }

  /** Across instances, crashes and concurrent operations: custodians are asked
      under one anti-replay id by at most one operation, and every operation
      that asks them for a recovery has used a ticket for that resource and
      epoch that no other operation used. */
  lemma OrdersAreSingleUse(s: System, a: SentOrder, b: SentOrder)
    requires Reached(s) && a in s.orders && b in s.orders && a.order.RewrapOrder? && b.order.RewrapOrder?
    ensures a.order.record.b.antiReplay == b.order.record.b.antiReplay ==> a.who == b.who
    ensures a.order.record.b.kind == Recovery ==> SpentSome(s.store.log, a.who, a.order.record.b)
    ensures forall r, t, e, f :: Spent(s.store.log, a.who, r, t, e) && Spent(s.store.log, b.who, r, t, f) ==> a.who == b.who
  {
    ReachedIsOk(s);
    var log := s.store.log;
    assert OrderOk(log, a.who, a.order) && OrderOk(log, b.who, b.order);
    if a.order.record.b.antiReplay == b.order.record.b.antiReplay {
      ClaimedOnce(log, a.who, b.who, a.order.record.b.antiReplay);
    }
    forall r, t, e: U32, f: U32 | Spent(log, a.who, r, t, e) && Spent(log, b.who, r, t, f) ensures a.who == b.who {
      SpentOnce(log, a.who, b.who, r, t, e, f);
    }
  }

  /** An anti-replay id serves at most one release or renewal. */
  lemma AntiReplayServesOnce(s: System, a: Answer, b: Answer)
    requires Reached(s) && a in s.answers && b in s.answers
    requires IsProvenCode(a.reply.code) && IsProvenCode(b.reply.code) && a.reply.record.Some? && b.reply.record.Some?
    requires a.reply.record.value.b.antiReplay == b.reply.record.value.b.antiReplay
    ensures a.from == b.from
  {
    ReachedIsOk(s);
    assert ReplyOk(s.store.log, a.from, a.reply) && ReplyOk(s.store.log, b.from, b.reply);
    ClaimedOnce(s.store.log, a.from.value, b.from.value, a.reply.record.value.b.antiReplay);
  }
}
