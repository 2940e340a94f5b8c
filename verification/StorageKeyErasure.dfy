/** An erasure over whole runs: whatever asks the ledger for a resource's grant
    once it is erased is answered with the erasure, and stops there. */
module StorageKeyErasure {
  import opened Basics
  import opened StorageKey
  import opened Ledger
  import opened StorageKeyService
  import opened StorageKeySystem
  import opened StorageKeyInvariants
  import opened StorageKeyRuns
  import opened StorageKeyTheorems

  // ── A reply until it is delivered ──────────────────────────────────────

  lemma {:induction false} PostLeaves(net: map<nat, Packet>, uid: nat, who: Who, reqs: seq<Request>, u: nat)
    requires u < uid
    ensures u in Post(net, uid, who, reqs) <==> u in net
    ensures u in net ==> Post(net, uid, who, reqs)[u] == net[u]
    decreases |reqs|
  {
    if reqs != [] { PostLeaves(net[uid := Ask(who, reqs[0])], uid + 1, who, reqs[1..], u); }
  }

  /** A message whose id was given out is the same afterwards, or gone; unless
      it was a request, and is answered. */
  ghost predicate Carried(s: System, t: System, u: nat) {
    && s.nextUid <= t.nextUid && (u in t.net ==> u in s.net)
    && (u in t.net && s.net[u].Ack? ==> t.net[u] == s.net[u])
  }

  lemma SaidCarries(s: System, inst: nat, who: Who, from: Option<Who>, after: Svc, r: Outcome, u: nat)
    requires u < s.nextUid
    ensures Carried(s, Said(s, inst, who, from, after, r), u)
  {
    hide Post;
    PostLeaves(s.net, s.nextUid, who, r.sends, u);
  }

  lemma StepCarries(s: System, a: Action, u: nat)
    requires Enabled(s, a) && u < s.nextUid
    ensures Carried(s, Apply(s, a), u)
  {
    hide OnRequest, OnLedger, OnCustodian, Tick, Said;
    match a
    case Present(i, h, p) =>
      var call := OnRequest(s.svcs[i], h, s.nextCaller, p);
      var who := Who(i, s.svcs[i].nextCorr);
      SaidCarries(s.(nextCaller := s.nextCaller + 1, presentedTo := s.presentedTo[s.nextCaller := i]), i, who,
                  if call.0.nextCorr == s.svcs[i].nextCorr then None else Some(who), call.0, call.1, u);
    case Deliver(w, h) =>
      var p := s.net[w];
      var call := OnLedger(s.svcs[p.who.inst], h, p.who.corr, p.status, p.etag, p.value);
      SaidCarries(s.(net := s.net - {w}), p.who.inst, p.who, Some(p.who), call.0, call.1, u);
    case CustodianSays(i, h, corr, c, ok, env) =>
      var call := OnCustodian(s.svcs[i], h, corr, c, ok, env);
      SaidCarries(s, i, Who(i, corr), Some(Who(i, corr)), call.0, call.1, u);
    case ClockTick(i, h) =>
      var call := Tick(s.svcs[i], h);
      var who := Who(i, ExpiredCorr(s.svcs[i], h.nowMs));
      SaidCarries(s, i, who, Some(who), call.0, call.1, u);
    case _ =>
  }

  lemma {:induction false} RunCarries(actions: seq<Action>, more: seq<Action>, u: nat)
    requires IsRun(actions) && IsRun(actions + more) && u < After(actions).nextUid
    ensures Carried(After(actions), After(actions + more), u)
    decreases |more|
  {
    hide Apply, Enabled;
    if more == [] {
      assert actions + more == actions;
    } else {
      var less := more[..|more| - 1];
      assert (actions + more)[..|actions + more| - 1] == actions + less;
      RunCarries(actions, less, u);
      StepCarries(After(actions + less), (actions + more)[|actions + more| - 1], u);
    }
  }

  lemma LaterCarries(s: System, t: System, u: nat)
    requires Later(s, t) && u in s.net && s.net[u].Ack? && u in t.net
    ensures Inv(t) && t.net[u] == s.net[u]
  {
    hide Inv, PacketOk;
    var actions, more :| IsRun(actions) && IsRun(actions + more) && After(actions) == s && After(actions + more) == t;
    RunKeeps(actions);
    RunKeeps(actions + more);
    UidIsOut(s, u);
    RunCarries(actions, more, u);
  }

  lemma UidIsOut(s: System, u: nat)
    requires Inv(s) && u in s.net
    ensures u < s.nextUid
  {
    assert PacketOk(s, u);
  }

  // ── What does not ──────────────────────────────────────────────────────

  /** A release that read its grant before the erasure is not recalled: the
      custodian's answer it waits for completes it all the same. */
  lemma ReleaseOutlivesErasure(s: System, inst: nat, i: nat, h: Host, c: nat, env: Envelope)
    requires Inv(s) && Live(s, inst, i) && ErasedNow(s.store, OpAt(s, inst, i).res)
    requires var op := OpAt(s, inst, i);
             && op.stage == Custodians && op.refusal.None? && |op.envs| == 1
             && c <= 2 && c in op.asked && c !in op.answered && CheckAnswer(op, c, true, env).Passed?
             && op.envs[0].Envelope? && env.Envelope? && op.envs[0].index != env.index && h.signOk && h.auditUp && h.auditId.Some?
    ensures var r := OnCustodianOp(h, OpAt(s, inst, i), c, true, env);
            && r.op.Some? && r.op.value.stage == WriteAudit && r.op.value.refusal.None?
            && r.op.value.out.Some? && Completed(r.op.value.out.value) && |r.op.value.envs| == 2
  {
    var op := OpAt(s, inst, i);
    SlotIsOk(s, inst, i);
    hide Inv, ErasedNow;
    WhatIsGathered(s.store.log, Who(inst, op.corr), op);
    hide OpOk, OnCustodianOp;
    ReleaseCompletes(h, op, c, env);
  }

  lemma WhatIsGathered(log: seq<Write>, who: Who, op: Op)
    requires OpOk(log, who, op) && op.stage == Custodians && |op.envs| == 1
    ensures CheckReleased(op.envs[0], op.auth).Ok? && (op.auth.kind == Attachment || op.auth.kind == Recovery)
  {
    hide GrantedTo, SpentSome, ReqOk, CheckReleased;
  }

  lemma ReleaseCompletes(h: Host, op: Op, c: nat, env: Envelope)
    requires op.stage == Custodians && |op.envs| == 1 && c <= 2 && c in op.asked && c !in op.answered
    requires CheckAnswer(op, c, true, env).Passed?
    requires op.envs[0].Envelope? && env.Envelope? && op.envs[0].index != env.index
    requires CheckReleased(op.envs[0], op.auth).Ok? && (op.auth.kind == Attachment || op.auth.kind == Recovery)
    requires h.signOk && h.auditUp && h.auditId.Some?
    ensures var r := OnCustodianOp(h, op, c, true, env);
            && r.op.Some? && r.op.value.stage == WriteAudit && r.op.value.refusal.None?
            && r.op.value.out.Some? && Completed(r.op.value.out.value) && |r.op.value.envs| == 2
  {
    TwoMakeABundle(op, c, env);
    var o := op.(answered := op.answered + {c}, envs := op.envs + [env]);
    assert CustodianResult(h, op, c, true, env) == Release(h, o);
    hide CheckReleased, WriteBundle, CustodianResult, CheckAnswer;
  }

  lemma TwoMakeABundle(op: Op, c: nat, env: Envelope)
    requires CheckAnswer(op, c, true, env).Passed? && |op.envs| == 1
    requires op.envs[0].Envelope? && env.Envelope? && op.envs[0].index != env.index
    requires CheckReleased(op.envs[0], op.auth).Ok?
    ensures WriteBundle(op.envs[0], env, op.auth).Ok? && |WriteBundle(op.envs[0], env, op.auth).value| == 2
  {
  }

  /** A creation that a failed rotation left beyond the grant's epoch is never
      taken away while the grant is live. */
  lemma LeftCreationStays(s: System, a: Action, r: Resource, e: U32)
    requires Reached(s) && Enabled(s, a) && SetKey(r, e) in s.store.ledger
    requires CurrentGrant(s.store, r).Some? && CurrentGrant(s.store, r).value.b.kind == Grant
    requires e >= CurrentGrant(s.store, r).value.b.epoch
    ensures SetKey(r, e) in Apply(s, a).store.ledger
  {
    hide Apply, Enabled, Reached;
    if SetKey(r, e) !in Apply(s, a).store.ledger { SetsGoOnlyWhenDead(s, a, SetKey(r, e)); }
  }

  /** And it stands in the way: the creation of another rotation to that epoch
      is not stored, and that rotation ends there. */
  lemma LeftCreationRefusesRotation(s: System, u: nat, r: Resource, e: U32, h: Host, op: Op, etag: Etag, value: Value)
    requires Enabled(s, Serve(u, Honest)) && SetKey(r, e) in s.store.ledger
    requires s.net[u].req.PutIfAbsent? && s.net[u].req.key == SetKey(r, e)
    requires op.stage == PutSet && op.code == RotateKeyOp
    ensures Apply(s, Serve(u, Honest)).store == s.store && Apply(s, Serve(u, Honest)).net[u].status == StConflict
    ensures var o := OnLedgerOp(h, op, StConflict, etag, value);
            && o.orders == [] && o.signs == {}
            && (o.op.Some? ==> o.op.value.refusal == Some(Conflict) && o.op.value.stage == WriteAudit)
            && (forall i :: 0 <= i < |o.replies| ==> o.replies[i].refusal == Some(Conflict))
  {
  }

  // ── What reads an erasure ──────────────────────────────────────────────

  /** Refused, or already answered as refused: nothing is left to hand out. */
  ghost predicate Stopped(r: Outcome) {
    && r.orders == [] && r.signs == {}
    && (r.op.Some? ==> r.op.value.refusal.Some? && r.op.value.out.None?)
    && (forall i :: 0 <= i < |r.replies| ==>
          r.replies[i].refusal.Some? && r.replies[i].record.None? && r.replies[i].bundle == [])
  }

  /** An operation in its slot that a read of its grant key reaches is waiting
      for that read, or refused already. */
  lemma WaitsForGrant(s: System, u: nat, i: nat, r: Resource)
    requires Inv(s) && u in s.net && s.net[u].Ack? && Live(s, s.net[u].who.inst, i)
    requires OpAt(s, s.net[u].who.inst, i).corr == s.net[u].who.corr && s.net[u].req == Get(GrantKey(r))
    requires !AwaitsCustodians(OpAt(s, s.net[u].who.inst, i).stage)
    ensures var op := OpAt(s, s.net[u].who.inst, i);
            if op.refusal.Some? then op.stage == WriteAudit && op.out.None? else op.stage == GetGrant
  {
    SlotIsOk(s, s.net[u].who.inst, i);
    hide Inv, StageOk, ReqOk;
  }

  lemma ErasureStops(h: Host, op: Op, etag: Etag, rec: Record)
    requires op.code != EraseOp && rec.b.kind == Erasure
    requires if op.refusal.Some? then op.stage == WriteAudit && op.out.None? else op.stage == GetGrant
    ensures Stopped(OnLedgerOp(h, op, StOk, etag, Rec(rec)))
  {
    if op.refusal.None? {
      ReadingAnErasureRefuses(h, op, etag, rec);
      RepliesRefuse(h, op, etag, rec);
    }
  }

  lemma RepliesRefuse(h: Host, op: Op, etag: Etag, rec: Record)
    requires op.stage == GetGrant && op.code != EraseOp && rec.b.kind == Erasure
    ensures var r := OnLedgerOp(h, op, StOk, etag, Rec(rec)); r.op.Some? ==> r.replies == []
  {
  }

  lemma ErasureArrives(s: System, t: System, r: Resource, u: nat, v: System)
    requires Later(s, t) && ErasedNow(s.store, r) && Enabled(t, Serve(u, Honest)) && t.net[u].req == Get(GrantKey(r))
    requires Later(Apply(t, Serve(u, Honest)), v) && u in v.net
    ensures Inv(v) && CurrentGrant(s.store, r).Some? && CurrentGrant(s.store, r).value.b.kind == Erasure
    ensures v.net[u].Ack? && v.net[u].req == Get(GrantKey(r)) && v.net[u].status == StOk
    ensures v.net[u].value == Rec(CurrentGrant(s.store, r).value)
  {
    ReadsReturnTheErasure(s, t, r, u);
    hide Inv, Later, ReqOk;
    LaterCarries(Apply(t, Serve(u, Honest)), v, u);
  }

  /** In any run: once a resource is erased, a read of its grant that the
      ledger serves from then on brings back that erasure whenever it is
      delivered; and the operation it reaches, unless it is an erasure itself,
      orders nothing, has nothing signed and hands nothing out. */
  lemma ErasureStopsLaterReads(s: System, t: System, r: Resource, u: nat, v: System, h: Host, i: nat)
    requires Later(s, t) && ErasedNow(s.store, r) && Enabled(t, Serve(u, Honest)) && t.net[u].req == Get(GrantKey(r))
    requires Later(Apply(t, Serve(u, Honest)), v) && Enabled(v, Deliver(u, h))
    requires i == LedgerSlot(v.svcs[v.net[u].who.inst].ops, v.net[u].who.corr) < |v.svcs[v.net[u].who.inst].ops|
    requires v.svcs[v.net[u].who.inst].ops[i].value.code != EraseOp
    ensures v.net[u].status == StOk && v.net[u].value == Rec(CurrentGrant(s.store, r).value)
    ensures var p := v.net[u];
            var call := OnLedger(v.svcs[p.who.inst], h, p.who.corr, p.status, p.etag, p.value);
            && Stopped(call.1) && call.0.ops[i] == call.1.op
            && Apply(v, Deliver(u, h)).orders == v.orders && Apply(v, Deliver(u, h)).signed == v.signed
  {
    ErasureArrives(s, t, r, u, v);
    hide Inv, Later, Served, ErasedNow, CurrentGrant, Stopped;
    WaitsForGrant(v, u, i, r);
    var p := v.net[u];
    ErasureStops(h, v.svcs[p.who.inst].ops[i].value, p.etag, CurrentGrant(s.store, r).value);
    hide OnLedger, OnLedgerOp, Apply;
    StoppedSaysNothing(v, u, h, i);
  }

  lemma StoppedSaysNothing(v: System, u: nat, h: Host, i: nat)
    requires Enabled(v, Deliver(u, h))
    requires i == LedgerSlot(v.svcs[v.net[u].who.inst].ops, v.net[u].who.corr) < |v.svcs[v.net[u].who.inst].ops|
    requires Stopped(OnLedgerOp(h, v.svcs[v.net[u].who.inst].ops[i].value, v.net[u].status, v.net[u].etag, v.net[u].value))
    ensures var p := v.net[u];
            var call := OnLedger(v.svcs[p.who.inst], h, p.who.corr, p.status, p.etag, p.value);
            && Stopped(call.1) && call.0.ops[i] == call.1.op
            && Apply(v, Deliver(u, h)).orders == v.orders && Apply(v, Deliver(u, h)).signed == v.signed
  {
    hide OnLedgerOp, Post;
  }
}
