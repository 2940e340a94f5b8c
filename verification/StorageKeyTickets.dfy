/** One operation, one ticket: whatever a run does, each operation marks one
    recovery ticket used at most, the one its request named. */
module StorageKeyTickets {
  import opened Basics
  import opened StorageKey
  import opened Ledger
  import opened StorageKeyService
  import opened StorageKeySystem
  import opened StorageKeyInvariants
  import opened StorageKeyTurns
  import opened StorageKeyRuns
  import opened StorageKeyTheorems

  /** The ticket key an operation's request names. */
  function TicketKeyOf(op: Op): Key { TicketKey(op.res, AttachTicket(op)) }

  /** A request that replaces a ticket. */
  predicate SwapsTicket(q: Request) { q.CompareAndSwap? && q.key.TicketKey? }

  predicate UsesTicket(w: Write) { w.writer.ByOp? && w.key.TicketKey? && w.value.Rec? && w.value.rec.b.consumed }

  /** Which ticket key each operation there ever was is tied to. */
  type Ties = map<Who, Key>

  ghost predicate TiedLog(log: seq<Write>, ties: Ties) {
    forall i :: 0 <= i < |log| && UsesTicket(log[i]) ==> log[i].writer.who in ties && ties[log[i].writer.who] == log[i].key
  }

  ghost predicate TiedPacket(p: Packet, ties: Ties) {
    SwapsTicket(p.req) ==> p.who in ties && ties[p.who] == p.req.key
  }

  ghost predicate TiedNet(net: map<nat, Packet>, ties: Ties) { forall u :: u in net ==> TiedPacket(net[u], ties) }

  ghost predicate TiedSlots(inst: nat, ops: seq<Option<Op>>, ties: Ties) {
    forall i :: 0 <= i < |ops| && ops[i].Some? ==>
      Who(inst, ops[i].value.corr) in ties && ties[Who(inst, ops[i].value.corr)] == TicketKeyOf(ops[i].value)
  }

  ghost predicate TiedSvcs(svcs: map<nat, Svc>, ties: Ties) { forall inst :: inst in svcs ==> TiedSlots(inst, svcs[inst].ops, ties) }

  /** Only operations there were are tied. */
  ghost predicate Known(s: System, ties: Ties) {
    forall who :: who in ties ==> who.inst < s.nextInst && (who.inst in s.svcs ==> who.corr < s.svcs[who.inst].nextCorr)
  }

  ghost predicate Tied(s: System, ties: Ties) {
    TiedLog(s.store.log, ties) && TiedNet(s.net, ties) && TiedSvcs(s.svcs, ties) && Known(s, ties)
  }

  // ── One call ───────────────────────────────────────────────────────────

  /** The operation goes on about the same ticket and swaps no other. */
  ghost predicate SameTicket(op: Op, r: Outcome) {
    && (r.op.Some? ==> r.op.value.corr == op.corr && TicketKeyOf(r.op.value) == TicketKeyOf(op))
    && (forall q :: q in r.sends && SwapsTicket(q) ==> q.key == TicketKeyOf(op))
  }

  lemma StageSwapsOwn(op: Op)
    ensures SwapsTicket(StageRequest(op)) ==> StageRequest(op).key == TicketKeyOf(op)
  {
  }

  lemma SettleSame(log: seq<Write>, who: Who, h: Host, op: Op, t: Turn)
    requires TurnOk(log, who, op, t)
    ensures SameTicket(op, Settle(h, t))
  {
    hide OpOk, Decided, OrderOk;
    StageSwapsOwn(t.verdict.op);
  }

  lemma ReplySame(s: System, u: nat, h: Host, i: nat)
    requires Inv(s) && u in s.net && s.net[u].Ack? && Live(s, s.net[u].who.inst, i)
    requires OpAt(s, s.net[u].who.inst, i).corr == s.net[u].who.corr
    requires !AwaitsCustodians(OpAt(s, s.net[u].who.inst, i).stage)
    ensures var p := s.net[u];
            var op := OpAt(s, p.who.inst, i);
            SameTicket(op, OnLedgerOp(h, op, p.status, p.etag, p.value))
  {
    var p := s.net[u];
    var op := OpAt(s, p.who.inst, i);
    PacketIsOk(s, u);
    SlotIsOk(s, p.who.inst, i);
    LogOfInv(s);
    hide Inv, LogOk;
    if op.stage != WriteAudit {
      PlainWhenOk(s.store.log, p.who, op);
      hide OpOk, Advance, Settle, TurnOk, SameTicket;
      AdvanceOk(s.store.log, p.who, h, op, p.status, p.etag, p.value);
      SettleSame(s.store.log, p.who, h, op, Advance(h, op, p.status, p.etag, p.value));
    }
  }

  lemma LogOfInv(s: System)
    requires Inv(s)
    ensures LogOk(s.store.log)
  {
  }

  lemma PlainWhenOk(log: seq<Write>, who: Who, op: Op)
    requires OpOk(log, who, op) && op.refusal.None?
    ensures Plain(op)
  {
  }

  lemma CustodianSame(s: System, inst: nat, i: nat, h: Host, c: nat, ok: bool, env: Envelope)
    requires Inv(s) && Live(s, inst, i) && AwaitsCustodians(OpAt(s, inst, i).stage)
    ensures var op := OpAt(s, inst, i); SameTicket(op, OnCustodianOp(h, op, c, ok, env))
  {
    var op := OpAt(s, inst, i);
    var who := Who(inst, op.corr);
    SlotIsOk(s, inst, i);
    hide Inv;
    PlainWhenOk(s.store.log, who, op);
    hide CustodianResult, EraseResult, Settle, TurnOk, SameTicket, ReqOk, GrantedTo, Gathering;
    if op.stage == EraseCustodians {
      EraseResultOk(s.store.log, who, op, c, ok);
      SettleSame(s.store.log, who, h, op, EraseResult(op, c, ok));
    } else {
      CustodianResultOk(s.store.log, who, h, op, c, ok, env);
      SettleSame(s.store.log, who, h, op, CustodianResult(h, op, c, ok, env));
    }
  }

  lemma ExpirySame(h: Host, op: Op)
    ensures SameTicket(op, OnExpiredOp(h, op))
  {
  }

  // ── The whole system ───────────────────────────────────────────────────

  lemma {:induction false} PostTied(net: map<nat, Packet>, uid: nat, who: Who, reqs: seq<Request>, ties: Ties)
    requires TiedNet(net, ties)
    requires forall q :: q in reqs && SwapsTicket(q) ==> who in ties && ties[who] == q.key
    ensures TiedNet(Post(net, uid, who, reqs), ties)
    decreases |reqs|
  {
    hide SwapsTicket;
    if reqs != [] {
      assert reqs[0] in reqs;
      assert TiedPacket(Ask(who, reqs[0]), ties);
      PostTied(net[uid := Ask(who, reqs[0])], uid + 1, who, reqs[1..], ties);
    }
  }

  /** A call that reached the operation `who` of one instance. */
  lemma SaidTied(s: System, inst: nat, who: Who, from: Option<Who>, after: Svc, r: Outcome, ties: Ties)
    requires Tied(s, ties) && inst in s.svcs && s.svcs[inst].nextCorr <= after.nextCorr && TiedSlots(inst, after.ops, ties)
    requires forall q :: q in r.sends && SwapsTicket(q) ==> who in ties && ties[who] == q.key
    ensures Tied(Said(s, inst, who, from, after, r), ties)
  {
    hide TiedSlots, TiedLog, TiedPacket, SwapsTicket, Post;
    PostTied(s.net, s.nextUid, who, r.sends, ties);
  }

  lemma SlotTied(inst: nat, ops: seq<Option<Op>>, i: nat, op: Op, r: Outcome, ties: Ties)
    requires TiedSlots(inst, ops, ties) && i < |ops| && ops[i] == Some(op) && SameTicket(op, r)
    ensures TiedSlots(inst, ops[i := r.op], ties)
    ensures forall q :: q in r.sends && SwapsTicket(q) ==>
              Who(inst, op.corr) in ties && ties[Who(inst, op.corr)] == q.key
  {
  }

  lemma DeliverTied(s: System, u: nat, h: Host, ties: Ties)
    requires Inv(s) && Tied(s, ties) && Enabled(s, Deliver(u, h))
    ensures Tied(Apply(s, Deliver(u, h)), ties)
  {
    var p := s.net[u];
    var svc := s.svcs[p.who.inst];
    var i := LedgerSlot(svc.ops, p.who.corr);
    var call := OnLedger(svc, h, p.who.corr, p.status, p.etag, p.value);
    hide Inv, TiedLog, OnLedgerOp, SameTicket, SwapsTicket;
    if i < |svc.ops| {
      ReplySame(s, u, h, i);
      SlotTied(p.who.inst, svc.ops, i, svc.ops[i].value, call.1, ties);
    }
    hide TiedSlots;
    SaidTied(s.(net := s.net - {u}), p.who.inst, p.who, Some(p.who), call.0, call.1, ties);
  }

  lemma SaysTied(s: System, inst: nat, h: Host, corr: nat, c: nat, ok: bool, env: Envelope, ties: Ties)
    requires Inv(s) && Tied(s, ties) && inst in s.svcs
    ensures Tied(Heard(s, Who(inst, corr), OnCustodian(s.svcs[inst], h, corr, c, ok, env)), ties)
  {
    var svc := s.svcs[inst];
    var i := CustodianSlot(svc.ops, corr);
    var call := OnCustodian(svc, h, corr, c, ok, env);
    hide Inv, TiedLog, TiedNet, OnCustodianOp, SameTicket, SwapsTicket;
    if i < |svc.ops| {
      CustodianSame(s, inst, i, h, c, ok, env);
      SlotTied(inst, svc.ops, i, svc.ops[i].value, call.1, ties);
    }
    hide TiedSlots;
    SaidTied(s, inst, Who(inst, corr), Some(Who(inst, corr)), call.0, call.1, ties);
  }

  lemma TickTied(s: System, inst: nat, h: Host, ties: Ties)
    requires Tied(s, ties) && inst in s.svcs
    ensures Tied(Heard(s, Who(inst, ExpiredCorr(s.svcs[inst], h.nowMs)), Tick(s.svcs[inst], h)), ties)
  {
    var svc := s.svcs[inst];
    var i := ExpiredSlot(svc.ops, h.nowMs);
    var call := Tick(svc, h);
    hide TiedLog, TiedNet, OnExpiredOp, SameTicket, SwapsTicket;
    if i < |svc.ops| {
      ExpirySame(h, svc.ops[i].value);
      SlotTied(inst, svc.ops, i, svc.ops[i].value, call.1, ties);
    }
    var who := Who(inst, ExpiredCorr(svc, h.nowMs));
    hide TiedSlots;
    SaidTied(s, inst, who, Some(who), call.0, call.1, ties);
  }

  /** A new operation is tied to the ticket its request names. */
  lemma PresentTied(s: System, inst: nat, h: Host, p: Payload, ties: Ties) returns (more: Ties)
    requires Inv(s) && Tied(s, ties) && inst in s.svcs
    ensures Tied(Presented(s, inst, OnRequest(s.svcs[inst], h, s.nextCaller, p)), more)
  {
    var svc := s.svcs[inst];
    var call := OnRequest(svc, h, s.nextCaller, p);
    var who := Who(inst, svc.nextCorr);
    var s' := s.(nextCaller := s.nextCaller + 1, presentedTo := s.presentedTo[s.nextCaller := inst]);
    if call.0.nextCorr == svc.nextCorr {
      more := ties;
      NoSlotTaken(svc, h, s.nextCaller, p);
      hide Inv, OnRequest, Tied;
      assert Tied(s', more) by { BookkeepingTied(s, s', ties); }
      SaidTied(s', inst, who, None, call.0, call.1, more) by { SlotsOf(s, inst, ties); }
    } else {
      var op := NewOp(h, s.nextCaller, svc.nextCorr, p);
      more := ties[who := TicketKeyOf(op)];
      NewIsTied(s, s', inst, who, op, ties);
      var r := NewSame(s, inst, h, p);
      hide Inv, Tied, TiedSlots, Presented;
      SlotTakenTied(s', inst, who, op, h, p, r, more);
      hide OnRequest, Said;
      PresentedIs(s, s', inst, call);
    }
  }

  lemma PresentedIs(s: System, s': System, inst: nat, call: (Svc, Outcome))
    requires inst in s.svcs && call.0.nextCorr != s.svcs[inst].nextCorr
    requires s' == s.(nextCaller := s.nextCaller + 1, presentedTo := s.presentedTo[s.nextCaller := inst])
    ensures var who := Who(inst, s.svcs[inst].nextCorr);
            Presented(s, inst, call) == Said(s', inst, who, Some(who), call.0, call.1)
  {
  }

  lemma NoSlotTaken(svc: Svc, h: Host, caller: nat, p: Payload)
    requires OnRequest(svc, h, caller, p).0.nextCorr == svc.nextCorr
    ensures OnRequest(svc, h, caller, p).0.ops == svc.ops && OnRequest(svc, h, caller, p).1.sends == []
  {
    hide Start, Settle, IssueChallenge;
  }

  lemma BookkeepingTied(s: System, t: System, ties: Ties)
    requires Tied(s, ties) && t == s.(nextCaller := t.nextCaller, presentedTo := t.presentedTo)
    ensures Tied(t, ties)
  {
  }

  lemma SlotsOf(s: System, inst: nat, ties: Ties)
    requires Tied(s, ties) && inst in s.svcs
    ensures TiedSlots(inst, s.svcs[inst].ops, ties)
  {
  }

  lemma NewSame(s: System, inst: nat, h: Host, p: Payload) returns (r: Outcome)
    requires Inv(s) && inst in s.svcs
    ensures var op := NewOp(h, s.nextCaller, s.svcs[inst].nextCorr, p);
            r == Settle(h, Start(h, s.svcs[inst].challenges, op).1) && SameTicket(op, r)
  {
    hide Inv, Settle, SameTicket, TurnOk;
    var svc := s.svcs[inst];
    var op := NewOp(h, s.nextCaller, svc.nextCorr, p);
    var who := Who(inst, svc.nextCorr);
    StartOk(s.store.log, who, h, svc.challenges, s.nextCaller, svc.nextCorr, p);
    SettleSame(s.store.log, who, h, op, Start(h, svc.challenges, op).1);
    r := Settle(h, Start(h, svc.challenges, op).1);
  }

  /** Nothing there is about an operation before it is. */
  lemma NewIsTied(s: System, s': System, inst: nat, who: Who, op: Op, ties: Ties)
    requires Inv(s) && Tied(s, ties) && inst in s.svcs && who == Who(inst, s.svcs[inst].nextCorr)
    requires s' == s.(nextCaller := s'.nextCaller, presentedTo := s'.presentedTo)
    ensures var more := ties[who := TicketKeyOf(op)];
            && TiedLog(s'.store.log, more) && TiedNet(s'.net, more) && TiedSvcs(s'.svcs, more)
            && (forall w :: w in more && w != who ==>
                  w.inst < s'.nextInst && (w.inst in s'.svcs ==> w.corr < s'.svcs[w.inst].nextCorr))
            && inst < s'.nextInst
  {
    assert InstanceOk(s, inst);
    assert who !in ties;
    hide Inv, InstanceOk, UsesTicket, SwapsTicket, TicketKeyOf;
  }

  lemma SlotTakenTied(s: System, inst: nat, who: Who, op: Op, h: Host, p: Payload, r: Outcome, more: Ties)
    requires inst in s.svcs && who == Who(inst, s.svcs[inst].nextCorr) && inst < s.nextInst
    requires s.nextCaller > 0 && op == NewOp(h, s.nextCaller - 1, s.svcs[inst].nextCorr, p)
    requires r == Settle(h, Start(h, s.svcs[inst].challenges, op).1) && SameTicket(op, r)
    requires OnRequest(s.svcs[inst], h, s.nextCaller - 1, p).0.nextCorr != s.svcs[inst].nextCorr
    requires who in more && more[who] == TicketKeyOf(op)
    requires TiedLog(s.store.log, more) && TiedNet(s.net, more) && TiedSvcs(s.svcs, more)
    requires forall w :: w in more && w != who ==> w.inst < s.nextInst && (w.inst in s.svcs ==> w.corr < s.svcs[w.inst].nextCorr)
    ensures var call := OnRequest(s.svcs[inst], h, s.nextCaller - 1, p);
            Tied(Said(s, inst, who, Some(who), call.0, call.1), more)
  {
    var svc := s.svcs[inst];
    var call := OnRequest(svc, h, s.nextCaller - 1, p);
    var i := FreeSlot(svc.ops);
    TakesSlot(svc, h, s.nextCaller - 1, p, op, r);
    hide OnRequest, Start, Settle;
    assert op.corr == who.corr;
    NewSlotTied(inst, svc.ops, i, op, r, more);
    hide SameTicket, TiedSlots, TiedLog, TiedPacket, SwapsTicket, TicketKeyOf, Post;
    PostTied(s.net, s.nextUid, who, r.sends, more);
  }

  lemma TakesSlot(svc: Svc, h: Host, caller: nat, p: Payload, op: Op, r: Outcome)
    requires op == NewOp(h, caller, svc.nextCorr, p) && r == Settle(h, Start(h, svc.challenges, op).1)
    requires OnRequest(svc, h, caller, p).0.nextCorr != svc.nextCorr
    ensures var call := OnRequest(svc, h, caller, p);
            && FreeSlot(svc.ops) < |svc.ops| && call.0.ops == svc.ops[FreeSlot(svc.ops) := r.op]
            && call.0.nextCorr == svc.nextCorr + 1 && call.1 == r
  {
    hide Start, Settle, IssueChallenge, NewOp;
  }

  lemma NewSlotTied(inst: nat, ops: seq<Option<Op>>, i: nat, op: Op, r: Outcome, ties: Ties)
    requires TiedSlots(inst, ops, ties) && i < |ops| && SameTicket(op, r)
    requires Who(inst, op.corr) in ties && ties[Who(inst, op.corr)] == TicketKeyOf(op)
    ensures TiedSlots(inst, ops[i := r.op], ties)
    ensures forall q :: q in r.sends && SwapsTicket(q) ==> ties[Who(inst, op.corr)] == q.key
  {
  }

  /** The ledger takes a request of an operation tied to the ticket it swaps. */
  lemma TakenTied(st: Storage, who: Who, q: Request, ties: Ties)
    requires TiedLog(st.log, ties) && (SwapsTicket(q) ==> who in ties && ties[who] == q.key)
    requires q.PutIfAbsent? && q.key.TicketKey? ==> q.value.Rec? && !q.value.rec.b.consumed
    ensures TiedLog(Taken(st, who, q).log, ties)
  {
    var log := Taken(st, who, q).log;
    if log != st.log {
      assert q.PutIfAbsent? || q.CompareAndSwap?;
      assert log == st.log + [Write(q.key, q.value, ByOp(who))];
    }
  }

  lemma AnsweredTied(net: map<nat, Packet>, u: nat, p: Packet, ties: Ties)
    requires TiedNet(net, ties) && u in net && p.who == net[u].who && p.req == net[u].req
    ensures TiedNet(net[u := p], ties)
  {
    hide SwapsTicket;
    assert TiedPacket(net[u], ties);
  }

  lemma AskIsOk(s: System, u: nat)
    requires Inv(s) && u in s.net && s.net[u].Ask?
    ensures ReqOk(s.store.log, s.net[u].who, s.net[u].req)
  {
    assert PacketOk(s, u);
  }

  lemma ServeTied(s: System, u: nat, how: Serving, ties: Ties)
    requires Inv(s) && Tied(s, ties) && Enabled(s, Serve(u, how))
    ensures Tied(Apply(s, Serve(u, how)), ties)
  {
    var p := s.net[u];
    var t := Served(s, u, how);
    AskIsOk(s, u);
    FirstIsUnused(s.store.log, p.who, p.req);
    hide Inv, ReqOk, TiedSvcs;
    assert TiedPacket(p, ties);
    TakenTied(s.store, p.who, p.req, ties);
    hide TiedLog, SwapsTicket, Taken;
    AnsweredTied(s.net, u, t.net[u], ties);
    assert t.net == s.net[u := t.net[u]];
  }

  lemma FirstIsUnused(log: seq<Write>, who: Who, q: Request)
    requires ReqOk(log, who, q)
    ensures q.PutIfAbsent? && q.key.TicketKey? ==> q.value.Rec? && !q.value.rec.b.consumed
  {
  }

  lemma QuietTied(s: System, a: Action, ties: Ties)
    requires Inv(s) && Tied(s, ties) && Enabled(s, a)
    requires a.Spawn? || a.Crash? || a.Lose? || a.OtherClaims? || a.DirectoryChanges?
    ensures Tied(Apply(s, a), ties)
  {
    hide Inv, TiedPacket;
  }

  lemma StepTied(s: System, a: Action, ties: Ties) returns (more: Ties)
    requires Inv(s) && Tied(s, ties) && Enabled(s, a)
    ensures Tied(Apply(s, a), more)
  {
    hide Inv, Tied, OnRequest, OnLedger, OnCustodian, Tick;
    more := ties;
    match a {
      case Present(i, h, p) => more := PresentTied(s, i, h, p, ties);
      case Serve(u, how) => ServeTied(s, u, how, ties);
      case Deliver(u, h) => DeliverTied(s, u, h, ties);
      case CustodianSays(i, h, corr, c, ok, env) => SaysTied(s, i, h, corr, c, ok, env, ties);
      case ClockTick(i, h) => TickTied(s, i, h, ties);
      case _ => QuietTied(s, a, ties);
    }
  }

  lemma {:induction false} RunTied(actions: seq<Action>) returns (ties: Ties)
    requires IsRun(actions)
    ensures Tied(After(actions), ties)
  {
    if actions == [] {
      ties := map[];
    } else {
      hide Inv, Tied, Apply, Enabled;
      var before := RunTied(actions[..|actions| - 1]);
      RunKeeps(actions[..|actions| - 1]);
      ties := StepTied(After(actions[..|actions| - 1]), actions[|actions| - 1], before);
    }
  }

  // ── What it comes to ───────────────────────────────────────────────────

  /** In every reached state an operation has used one ticket at most. */
  lemma OperationUsesOneTicket(s: System, who: Who, r: Resource, t: Id, e: U32, r': Resource, t': Id, e': U32)
    requires Reached(s) && Spent(s.store.log, who, r, t, e) && Spent(s.store.log, who, r', t', e')
    ensures r == r' && t == t'
  {
    var actions :| IsRun(actions) && After(actions) == s;
    hide Inv, IsRun;
    var ties := RunTied(actions);
    var i := SpentAt(s.store.log, who, r, t, e);
    var j := SpentAt(s.store.log, who, r', t', e');
    assert UsesTicket(s.store.log[i]) && UsesTicket(s.store.log[j]);
  }

  /** So each recovery order stands on one ticket, its operation's only one, and
      no ticket leads to orders from two operations. */
  lemma TicketLeadsToOneOperation(s: System, a: SentOrder) returns (t: Id)
    requires Reached(s) && a in s.orders && a.order.RewrapOrder? && a.order.record.b.kind == Recovery
    ensures Spent(s.store.log, a.who, a.order.record.b.res, t, a.order.record.b.epoch)
    ensures forall r, t', e :: Spent(s.store.log, a.who, r, t', e) ==> r == a.order.record.b.res && t' == t
    ensures forall who, e :: Spent(s.store.log, who, a.order.record.b.res, t, e) ==> who == a.who
  {
    OrdersAreSingleUse(s, a, a);
    LogIsOk(s);
    hide Spent;
    var b := a.order.record.b;
    t :| Spent(s.store.log, a.who, b.res, t, b.epoch);
    forall r, t', e: U32 | Spent(s.store.log, a.who, r, t', e) ensures r == b.res && t' == t {
      OperationUsesOneTicket(s, a.who, r, t', e, b.res, t, b.epoch);
    }
    forall who, e: U32 | Spent(s.store.log, who, b.res, t, e) ensures who == a.who {
      SpentOnce(s.store.log, who, a.who, b.res, t, e, b.epoch);
    }
  }
}
