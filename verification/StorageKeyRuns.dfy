/** Every call of a service keeps the invariant, so every run does. */
module StorageKeyRuns {
  import opened Basics
  import opened StorageKey
  import opened Ledger
  import opened StorageKeyService
  import opened StorageKeySystem
  import opened StorageKeyInvariants
  import opened StorageKeyTurns
  import opened StorageKeyLog
  import opened StorageKeySteps

  lemma PresentKeeps(s: System, inst: nat, h: Host, p: Payload)
    requires Inv(s) && inst in s.svcs
    ensures Inv(Presented(s, inst, OnRequest(s.svcs[inst], h, s.nextCaller, p)))
  {
    var s' := s.(nextCaller := s.nextCaller + 1, presentedTo := s.presentedTo[s.nextCaller := inst]);
    var call := OnRequest(s.svcs[inst], h, s.nextCaller, p);
    CallersCounted(s, s');
    if call.0.nextCorr == s.svcs[inst].nextCorr {
      RefusedRequestKeeps(s, s', inst, h, p);
    } else {
      NewRequestKeeps(s, s', inst, h, p);
    }
    PresentedKeeps(s, s', inst, call);
  }

  lemma PresentedKeeps(s: System, s': System, inst: nat, call: (Svc, Outcome))
    requires inst in s.svcs
    requires s' == s.(nextCaller := s.nextCaller + 1, presentedTo := s.presentedTo[s.nextCaller := inst])
    requires var who := Who(inst, s.svcs[inst].nextCorr);
             Inv(Said(s', inst, who, if call.0.nextCorr == who.corr then None else Some(who), call.0, call.1))
    ensures Inv(Presented(s, inst, call))
  {
  }

  /** A challenge, or a request that takes no slot. */
  lemma RefusedRequestKeeps(s: System, s': System, inst: nat, h: Host, p: Payload)
    requires Inv(s') && inst in s'.svcs && s'.svcs == s.svcs
    requires OnRequest(s.svcs[inst], h, s.nextCaller, p).0.nextCorr == s.svcs[inst].nextCorr
    ensures var call := OnRequest(s.svcs[inst], h, s.nextCaller, p);
            Inv(Said(s', inst, Who(inst, s.svcs[inst].nextCorr), None, call.0, call.1))
  {
    var call := OnRequest(s.svcs[inst], h, s.nextCaller, p);
    QuietKeeps(s', Who(inst, s.svcs[inst].nextCorr), None, call.0, call.1);
  }

  /** The bookkeeping of presented requests is not part of the invariant. */
  lemma CallersCounted(s: System, t: System)
    requires Inv(s) && t == s.(nextCaller := t.nextCaller, presentedTo := t.presentedTo)
    ensures Inv(t)
  {
    forall u | u in t.net ensures PacketOk(t, u) { assert PacketOk(s, u); }
    forall inst | inst in t.svcs ensures InstanceOk(t, inst) { QuietInstance(s, t, inst); }
  }

  lemma NewRequestKeeps(s: System, s': System, inst: nat, h: Host, p: Payload)
    requires Inv(s') && inst in s'.svcs && s'.svcs == s.svcs
    requires OnRequest(s.svcs[inst], h, s.nextCaller, p).0.nextCorr != s.svcs[inst].nextCorr
    ensures var call := OnRequest(s.svcs[inst], h, s.nextCaller, p);
            var who := Who(inst, s.svcs[inst].nextCorr);
            Inv(Said(s', inst, who, Some(who), call.0, call.1))
  {
    var svc := s.svcs[inst];
    var who := Who(inst, svc.nextCorr);
    var op := NewOp(h, s.nextCaller, svc.nextCorr, p);
    var turn := Start(h, svc.challenges, op).1;
    StartOk(s'.store.log, who, h, svc.challenges, s.nextCaller, svc.nextCorr, p);
    SettleOk(s'.store.log, who, h, op, turn);
    var i := FreeSlot(svc.ops);
    NewOpConcerns(s', inst, i, Settle(h, turn), Start(h, svc.challenges, op).0);
    SaidKeeps(s', who, i, OnRequest(svc, h, s.nextCaller, p).0, Settle(h, turn), s.nextCaller);
  }

  lemma NewOpConcerns(s: System, inst: nat, i: nat, r: Outcome, cs: seq<Challenge>)
    requires Inv(s) && inst in s.svcs && i < |s.svcs[inst].ops|
    ensures Concerned(s, Who(inst, s.svcs[inst].nextCorr), i,
                      Svc(s.svcs[inst].ops[i := r.op], cs, s.svcs[inst].nextCorr + 1), r)
  {
    assert InstanceOk(s, inst);
    forall j: nat | Live(s, inst, j) ensures OpAt(s, inst, j).corr != s.svcs[inst].nextCorr {
      assert SlotOk(s, inst, j);
    }
    forall u | u in s.net ensures s.net[u].who != Who(inst, s.svcs[inst].nextCorr) {
      assert PacketOk(s, u);
    }
  }

  /** A call that reached the operation in slot `i`. */
  lemma HeldOpConcerns(s: System, inst: nat, i: nat, r: Outcome, cs: seq<Challenge>)
    requires Inv(s) && inst in s.svcs && Live(s, inst, i)
    requires r.op.Some? && r.op.value.refusal.None? ==>
      forall u :: u in s.net ==> s.net[u].who != Who(inst, OpAt(s, inst, i).corr)
    ensures Concerned(s, Who(inst, OpAt(s, inst, i).corr), i,
                      Svc(s.svcs[inst].ops[i := r.op], cs, s.svcs[inst].nextCorr), r)
  {
    assert InstanceOk(s, inst) && SlotOk(s, inst, i);
    assert CorrsDiffer(s.svcs[inst].ops);
  }

  lemma SlotIsOk(s: System, inst: nat, i: nat)
    requires Inv(s) && Live(s, inst, i)
    ensures OpAt(s, inst, i).refusal.None? ==>
      OpOk(s.store.log, Who(inst, OpAt(s, inst, i).corr), OpAt(s, inst, i)) && Pairing(s, inst, OpAt(s, inst, i))
    ensures OpAt(s, inst, i).refusal.Some? ==>
      OpAt(s, inst, i).stage == WriteAudit && OpAt(s, inst, i).out.None? && OpAt(s, inst, i).envs == []
  {
    assert InstanceOk(s, inst) && SlotOk(s, inst, i);
  }

  lemma PacketIsOk(s: System, u: nat)
    requires Inv(s) && u in s.net && s.net[u].Ack?
    ensures AckOk(s.store.log, s.net[u])
  {
    assert PacketOk(s, u);
  }

  lemma DeliverKeeps(s: System, u: nat, h: Host, p: Packet, svc: Svc)
    requires Inv(s) && u in s.net && s.net[u] == p && p.Ack? && p.who.inst in s.svcs && svc == s.svcs[p.who.inst]
    ensures Inv(Heard(s.(net := s.net - {u}), p.who, OnLedger(svc, h, p.who.corr, p.status, p.etag, p.value)))
  {
    var s' := s.(net := s.net - {u});
    LoseKeeps(s, u);
    var i := LedgerSlot(svc.ops, p.who.corr);
    if i == |svc.ops| {
      var call := OnLedger(svc, h, p.who.corr, p.status, p.etag, p.value);
      QuietKeeps(s', p.who, Some(p.who), call.0, call.1);
    } else {
      ReplyReaches(s, u, h, p, i);
    }
  }

  lemma ReplyOutcome(s: System, u: nat, h: Host, p: Packet, i: nat)
    requires Inv(s) && u in s.net && s.net[u] == p && p.Ack?
    requires Live(s, p.who.inst, i) && OpAt(s, p.who.inst, i).corr == p.who.corr
    requires !AwaitsCustodians(OpAt(s, p.who.inst, i).stage)
    ensures var op := OpAt(s, p.who.inst, i);
            var r := OnLedgerOp(h, op, p.status, p.etag, p.value);
            && OutcomeOk(s.store.log, p.who, p.who.corr, op.caller, r)
            && (r.op.Some? ==> forall w :: w in s.net - {u} ==> s.net[w].who != p.who)
  {
    PacketIsOk(s, u);
    SlotIsOk(s, p.who.inst, i);
    OnLedgerOpOk(s.store.log, p.who, h, OpAt(s, p.who.inst, i), p.status, p.etag, p.value);
  }

  lemma ReplyReaches(s: System, u: nat, h: Host, p: Packet, i: nat)
    requires Inv(s) && u in s.net && s.net[u] == p && p.Ack? && Inv(s.(net := s.net - {u}))
    requires Live(s, p.who.inst, i) && i == LedgerSlot(s.svcs[p.who.inst].ops, p.who.corr)
    ensures var call := OnLedger(s.svcs[p.who.inst], h, p.who.corr, p.status, p.etag, p.value);
            Inv(Heard(s.(net := s.net - {u}), p.who, call))
  {
    var inst := p.who.inst;
    var s' := s.(net := s.net - {u});
    var op := OpAt(s, inst, i);
    var r := OnLedgerOp(h, op, p.status, p.etag, p.value);
    assert Live(s', inst, i);
    ReplyOutcome(s, u, h, p, i);
    HeldOpConcerns(s', inst, i, r, s.svcs[inst].challenges);
    SaidKeeps(s', p.who, i, s.svcs[inst].(ops := s.svcs[inst].ops[i := r.op]), r, op.caller);
  }

  lemma CustodianKeeps(s: System, inst: nat, h: Host, corr: nat, c: nat, ok: bool, env: Envelope)
    requires Inv(s) && inst in s.svcs
    ensures Inv(Heard(s, Who(inst, corr), OnCustodian(s.svcs[inst], h, corr, c, ok, env)))
  {
    var i := CustodianSlot(s.svcs[inst].ops, corr);
    var call := OnCustodian(s.svcs[inst], h, corr, c, ok, env);
    var who := Who(inst, corr);
    if i == |s.svcs[inst].ops| {
      QuietKeeps(s, who, Some(who), call.0, call.1);
    } else {
      var op := OpAt(s, inst, i);
      SlotIsOk(s, inst, i);
      OnCustodianOpOk(s.store.log, who, h, op, c, ok, env);
      HeldOpConcerns(s, inst, i, call.1, s.svcs[inst].challenges);
      SaidKeeps(s, who, i, call.0, call.1, op.caller);
    }
  }

  lemma ExpiredIsRefused(h: Host, op: Op)
    ensures OnExpiredOp(h, op).op.Some? ==> OnExpiredOp(h, op).op.value.refusal.Some?
  {
  }

  lemma TickKeeps(s: System, inst: nat, h: Host)
    requires Inv(s) && inst in s.svcs
    ensures Inv(Heard(s, Who(inst, ExpiredCorr(s.svcs[inst], h.nowMs)), Tick(s.svcs[inst], h)))
  {
    hide OnExpiredOp, StoreOk, NetOk, OutputsOk, OpOk;
    var i := ExpiredSlot(s.svcs[inst].ops, h.nowMs);
    var call := Tick(s.svcs[inst], h);
    var who := Who(inst, ExpiredCorr(s.svcs[inst], h.nowMs));
    if i == |s.svcs[inst].ops| {
      QuietKeeps(s, who, Some(who), call.0, call.1);
    } else {
      var op := OpAt(s, inst, i);
      SlotIsOk(s, inst, i);
      OnExpiredOpOk(s.store.log, who, h, op);
      ExpiredIsRefused(h, op);
      HeldOpConcerns(s, inst, i, call.1, ExpireChallenges(s.svcs[inst].challenges, h.nowMs));
      SaidKeeps(s, who, i, call.0, call.1, op.caller);
    }
  }

  /** Another client of the ledger claims an anti-replay id or changes the
      device directory. */
  lemma OthersKeep(s: System, k: Key, v: Value)
    requires Inv(s) && ((k.ReplayKey? && k !in s.store.ledger && v == Claim) || k.DeviceKey?)
    ensures Inv(s.(store := Store(s.store, k, v, ByOther)))
  {
    if k.ReplayKey? { AbsentIsNew(s.store, k); }
    AppendOk(s.store.log, Write(k, v, ByOther), None);
    StoreKeepsLedger(s.store, k, v, ByOther);
    OtherStored(s.store, k, v, ByOther);
    StoreMoved(s, s.(store := Store(s.store, k, v, ByOther)));
  }

  lemma StepKeeps(s: System, a: Action)
    requires Inv(s) && Enabled(s, a)
    ensures Inv(Apply(s, a))
  {
    hide Inv, OnRequest, OnLedger, OnCustodian, Tick, Store, Served;
    match a {
      case Spawn => SpawnKeeps(s);
      case Crash(i) => CrashKeeps(s, i);
      case Present(i, h, p) => PresentKeeps(s, i, h, p);
      case Serve(u, how) => ServeKeeps(s, u, how);
      case Lose(u) => LoseKeeps(s, u);
      case Deliver(u, h) => DeliverKeeps(s, u, h, s.net[u], s.svcs[s.net[u].who.inst]);
      case CustodianSays(i, h, corr, c, ok, env) => CustodianKeeps(s, i, h, corr, c, ok, env);
      case ClockTick(i, h) => TickKeeps(s, i, h);
      case OtherClaims(id) => OthersKeep(s, ReplayKey(id), Claim);
      case DirectoryChanges(d, v) => OthersKeep(s, DeviceKey(d), v);
    }
  }

  lemma {:induction false} RunKeeps(actions: seq<Action>)
    requires IsRun(actions)
    ensures Inv(After(actions))
  {
    if actions != [] {
      RunKeeps(actions[..|actions| - 1]);
      StepKeeps(After(actions[..|actions| - 1]), actions[|actions| - 1]);
    }
  }
}
