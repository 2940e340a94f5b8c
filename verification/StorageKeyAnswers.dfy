/** Every request is answered exactly once: a slot is freed exactly when its
    answer leaves, and nothing is answered twice. */
module StorageKeyAnswers {
  import opened Basics
  import opened StorageKey
  import opened Ledger
  import opened StorageKeyService
  import opened StorageKeySystem
  import opened StorageKeyInvariants
  import opened StorageKeyTurns
  import opened StorageKeyRuns
  import opened StorageKeyTheorems

  ghost predicate Answered(answers: seq<Answer>, c: nat) {
    exists n: nat :: n < |answers| && answers[n].reply.caller == c
  }

  ghost predicate Waits(svcs: map<nat, Svc>, inst: nat, i: nat, c: nat) {
    && inst in svcs && i < |svcs[inst].ops|
    && svcs[inst].ops[i].Some? && svcs[inst].ops[i].value.caller == c
  }

  /** Each presented request has one number, and no number two answers. */
  ghost predicate CallersOk(s: System) {
    && (forall c: nat :: c in s.presentedTo <==> c < s.nextCaller)
    && (forall c: nat :: c in s.presentedTo ==> s.presentedTo[c] < s.nextInst)
    && (forall n: nat :: n < |s.answers| ==> s.answers[n].reply.caller < s.nextCaller)
    && (forall m: nat, n: nat :: m < n < |s.answers| ==> s.answers[m].reply.caller != s.answers[n].reply.caller)
  }

  /** The request a slot holds was presented here and is not answered yet. */
  ghost predicate WaitingOk(s: System, inst: nat, i: nat, c: nat) {
    && c in s.presentedTo && s.presentedTo[c] == inst && !Answered(s.answers, c)
    && (forall j: nat :: Waits(s.svcs, inst, j, c) ==> j == i)
  }

  /** A request presented to an instance that is still up is answered or held. */
  ghost predicate Accounted(s: System, c: nat) {
    c in s.presentedTo && s.presentedTo[c] in s.svcs ==>
      Answered(s.answers, c) || exists i: nat :: Waits(s.svcs, s.presentedTo[c], i, c)
  }

  ghost predicate AnswersOk(s: System) {
    && CallersOk(s)
    && (forall inst, i: nat, c :: Waits(s.svcs, inst, i, c) ==> WaitingOk(s, inst, i, c))
    && (forall c: nat :: Accounted(s, c))
  }

  /** The same, except for slot `i` and request `c`, which is in no other slot
      and not answered. */
  ghost predicate AnswersBut(s: System, inst: nat, i: nat, c: nat) {
    && CallersOk(s)
    && c in s.presentedTo && s.presentedTo[c] == inst && inst in s.svcs && !Answered(s.answers, c)
    && (forall x, j: nat, d :: Waits(s.svcs, x, j, d) && !(x == inst && j == i) ==> WaitingOk(s, x, j, d) && d != c)
    && (forall d: nat :: d != c ==> Accounted(s, d))
    && (forall d: nat :: Waits(s.svcs, inst, i, d) ==> d == c)
  }

  /** A call either keeps request `c` in slot `i` and says nothing, or frees
      the slot and answers it. */
  ghost predicate Resolves(s: System, t: System, inst: nat, i: nat, c: nat, r: Outcome) {
    && inst in s.svcs && inst in t.svcs
    && t.svcs == s.svcs[inst := t.svcs[inst]]
    && t.svcs[inst].ops == (if i < |s.svcs[inst].ops| then s.svcs[inst].ops[i := r.op] else s.svcs[inst].ops)
    && (i >= |s.svcs[inst].ops| ==> r.op.None?)
    && t.presentedTo == s.presentedTo && t.nextCaller == s.nextCaller && t.nextInst == s.nextInst
    && (r.op.Some? ==> r.op.value.caller == c && t.answers == s.answers)
    && (r.op.None? ==> |t.answers| == |s.answers| + 1 && t.answers[..|s.answers|] == s.answers
                       && t.answers[|s.answers|].reply.caller == c)
  }

  lemma AnsweredGrows(s: System, t: System, inst: nat, i: nat, c: nat, r: Outcome)
    requires Resolves(s, t, inst, i, c, r)
    ensures forall d :: Answered(t.answers, d) <==> Answered(s.answers, d) || (r.op.None? && d == c)
  {
    forall d | Answered(s.answers, d) ensures Answered(t.answers, d) {
      var n: nat :| n < |s.answers| && s.answers[n].reply.caller == d;
      assert t.answers[n] == s.answers[n];
    }
    forall d | Answered(t.answers, d) ensures Answered(s.answers, d) || (r.op.None? && d == c) {
      var n: nat :| n < |t.answers| && t.answers[n].reply.caller == d;
      if n < |s.answers| { assert t.answers[n] == s.answers[n]; }
    }
    if r.op.None? { assert Answered(t.answers, c); }
  }

  lemma WaitsAfter(s: System, t: System, inst: nat, i: nat, c: nat, r: Outcome)
    requires Resolves(s, t, inst, i, c, r)
    ensures forall x, j: nat, d :: Waits(t.svcs, x, j, d) ==>
              (x == inst && j == i && d == c && r.op.Some?) || (!(x == inst && j == i) && Waits(s.svcs, x, j, d))
    ensures forall x, j: nat, d :: Waits(s.svcs, x, j, d) && !(x == inst && j == i) ==> Waits(t.svcs, x, j, d)
    ensures r.op.Some? ==> Waits(t.svcs, inst, i, c)
  {
  }

  lemma ResolvesCallers(s: System, t: System, inst: nat, i: nat, c: nat, r: Outcome)
    requires AnswersBut(s, inst, i, c) && Resolves(s, t, inst, i, c, r)
    ensures CallersOk(t)
  {
    forall m: nat, n: nat | m < n < |t.answers| ensures t.answers[m].reply.caller != t.answers[n].reply.caller {
      assert t.answers[m] == s.answers[m];
      if n < |s.answers| { assert t.answers[n] == s.answers[n]; } else { assert !Answered(s.answers, c); }
    }
    forall n: nat | n < |t.answers| ensures t.answers[n].reply.caller < t.nextCaller {
      if n < |s.answers| { assert t.answers[n] == s.answers[n]; }
    }
  }

  lemma ResolvesKeeps(s: System, t: System, inst: nat, i: nat, c: nat, r: Outcome)
    requires AnswersBut(s, inst, i, c) && Resolves(s, t, inst, i, c, r)
    ensures AnswersOk(t)
  {
    ResolvesCallers(s, t, inst, i, c, r);
    AnsweredGrows(s, t, inst, i, c, r);
    WaitsAfter(s, t, inst, i, c, r);
    forall x, j: nat, d | Waits(t.svcs, x, j, d) ensures WaitingOk(t, x, j, d) {
      if !(x == inst && j == i) { assert WaitingOk(s, x, j, d) && d != c; }
    }
    forall d: nat ensures Accounted(t, d) {
      if d != c && d in t.presentedTo && t.presentedTo[d] in t.svcs && !Answered(s.answers, d) {
        assert Accounted(s, d);
        var j: nat :| Waits(s.svcs, s.presentedTo[d], j, d);
        assert Waits(t.svcs, t.presentedTo[d], j, d);
      }
    }
  }

  /** A request already in its slot. */
  lemma HeldIsBut(s: System, inst: nat, i: nat, c: nat)
    requires AnswersOk(s) && Waits(s.svcs, inst, i, c)
    ensures AnswersBut(s, inst, i, c)
  {
    assert WaitingOk(s, inst, i, c);
  }

  /** A request just presented, before the call that takes it. */
  lemma NewIsBut(s: System, s': System, inst: nat, i: nat)
    requires AnswersOk(s) && inst in s.svcs && inst < s.nextInst
    requires s' == s.(nextCaller := s.nextCaller + 1, presentedTo := s.presentedTo[s.nextCaller := inst])
    requires i < |s.svcs[inst].ops| ==> s.svcs[inst].ops[i].None?
    ensures AnswersBut(s', inst, i, s.nextCaller)
  {
    forall x, j: nat, d | Waits(s'.svcs, x, j, d) ensures WaitingOk(s', x, j, d) && d != s.nextCaller {
      assert WaitingOk(s, x, j, d);
    }
    forall d: nat | d != s.nextCaller ensures Accounted(s', d) { assert Accounted(s, d); }
  }

  // ── Each action ────────────────────────────────────────────────────────

  /** Actions that touch no slot and no answer. */
  lemma UntouchedKeeps(s: System, t: System)
    requires AnswersOk(s)
    requires t.answers == s.answers && t.presentedTo == s.presentedTo && t.nextCaller == s.nextCaller && t.nextInst >= s.nextInst
    requires forall inst :: inst in t.svcs && inst < s.nextInst ==> inst in s.svcs && t.svcs[inst].ops == s.svcs[inst].ops
    requires forall inst, i: nat :: inst in t.svcs && inst >= s.nextInst && i < |t.svcs[inst].ops| ==> t.svcs[inst].ops[i].None?
    ensures AnswersOk(t)
  {
    forall x, j: nat, d | Waits(t.svcs, x, j, d) ensures WaitingOk(t, x, j, d) {
      assert Waits(s.svcs, x, j, d);
      assert WaitingOk(s, x, j, d);
      forall k: nat | Waits(t.svcs, x, k, d) ensures k == j { assert Waits(s.svcs, x, k, d); }
    }
    forall d: nat ensures Accounted(t, d) {
      assert Accounted(s, d);
      if d in t.presentedTo && t.presentedTo[d] in t.svcs && !Answered(s.answers, d) {
        var j: nat :| Waits(s.svcs, s.presentedTo[d], j, d);
        assert Waits(t.svcs, t.presentedTo[d], j, d);
      }
    }
  }

  /** A call that reached the operation in slot `i`. */
  lemma HeardAnswers(s: System, who: Who, i: nat, after: Svc, r: Outcome)
    requires AnswersOk(s) && Live(s, who.inst, i)
    requires OutcomeOk(s.store.log, who, who.corr, OpAt(s, who.inst, i).caller, r)
    requires after.ops == s.svcs[who.inst].ops[i := r.op]
    ensures AnswersOk(Heard(s, who, (after, r)))
  {
    var c := OpAt(s, who.inst, i).caller;
    HeldIsBut(s, who.inst, i, c);
    ResolvesKeeps(s, Heard(s, who, (after, r)), who.inst, i, c, r);
  }

  lemma QuietAnswers(s: System, who: Who, after: Svc)
    requires AnswersOk(s) && who.inst in s.svcs && after.ops == s.svcs[who.inst].ops && who.inst < s.nextInst
    requires forall inst :: inst in s.svcs ==> inst < s.nextInst
    ensures AnswersOk(Heard(s, who, (after, Silent())))
  {
    UntouchedKeeps(s, Heard(s, who, (after, Silent())));
  }

  /** Every instance is one that was spawned. */
  ghost predicate Spawned(s: System) { forall inst :: inst in s.svcs ==> inst < s.nextInst }

  lemma InvSpawned(s: System)
    requires Inv(s)
    ensures Spawned(s)
  {
    forall inst | inst in s.svcs ensures inst < s.nextInst { assert InstanceOk(s, inst); }
  }

  lemma DeliverAnswers(s: System, u: nat, h: Host, p: Packet, svc: Svc)
    requires Inv(s) && AnswersOk(s) && u in s.net && s.net[u] == p && p.Ack? && p.who.inst in s.svcs
    requires svc == s.svcs[p.who.inst]
    ensures AnswersOk(Heard(s.(net := s.net - {u}), p.who, OnLedger(svc, h, p.who.corr, p.status, p.etag, p.value)))
  {
    var s' := s.(net := s.net - {u});
    InvSpawned(s);
    UntouchedKeeps(s, s');
    var i := LedgerSlot(svc.ops, p.who.corr);
    if i == |svc.ops| {
      QuietAnswers(s', p.who, svc);
    } else {
      ReplyOutcome(s, u, h, p, i);
      var r := OnLedgerOp(h, svc.ops[i].value, p.status, p.etag, p.value);
      HeardAnswers(s', p.who, i, svc.(ops := svc.ops[i := r.op]), r);
    }
  }

  lemma CustodianAnswers(s: System, inst: nat, h: Host, corr: nat, c: nat, ok: bool, env: Envelope)
    requires Inv(s) && AnswersOk(s) && inst in s.svcs
    ensures AnswersOk(Heard(s, Who(inst, corr), OnCustodian(s.svcs[inst], h, corr, c, ok, env)))
  {
    var svc := s.svcs[inst];
    var i := CustodianSlot(svc.ops, corr);
    if i == |svc.ops| {
      InvSpawned(s);
      QuietAnswers(s, Who(inst, corr), svc);
    } else {
      SlotIsOk(s, inst, i);
      OnCustodianOpOk(s.store.log, Who(inst, corr), h, svc.ops[i].value, c, ok, env);
      var r := OnCustodianOp(h, svc.ops[i].value, c, ok, env);
      HeardAnswers(s, Who(inst, corr), i, svc.(ops := svc.ops[i := r.op]), r);
    }
  }

  lemma TickAnswers(s: System, inst: nat, h: Host)
    requires Inv(s) && AnswersOk(s) && inst in s.svcs
    ensures AnswersOk(Heard(s, Who(inst, ExpiredCorr(s.svcs[inst], h.nowMs)), Tick(s.svcs[inst], h)))
  {
    var svc := s.svcs[inst];
    var i := ExpiredSlot(svc.ops, h.nowMs);
    var cs := ExpireChallenges(svc.challenges, h.nowMs);
    var who := Who(inst, ExpiredCorr(svc, h.nowMs));
    if i == |svc.ops| {
      InvSpawned(s);
      QuietAnswers(s, who, svc.(challenges := cs));
    } else {
      SlotIsOk(s, inst, i);
      OnExpiredOpOk(s.store.log, who, h, svc.ops[i].value);
      var r := OnExpiredOp(h, svc.ops[i].value);
      HeardAnswers(s, who, i, Svc(svc.ops[i := r.op], cs, svc.nextCorr), r);
    }
  }

  /** A request is answered at once or takes a slot. */
  lemma RequestResolves(s: System, s': System, inst: nat, h: Host, p: Payload)
    requires inst in s.svcs && s'.svcs == s.svcs
    ensures var call := OnRequest(s.svcs[inst], h, s.nextCaller, p);
            var who := Who(inst, s.svcs[inst].nextCorr);
            var from := if call.0.nextCorr == who.corr then None else Some(who);
            var i := if call.0.nextCorr == who.corr then |s.svcs[inst].ops| else FreeSlot(s.svcs[inst].ops);
            Resolves(s', Said(s', inst, who, from, call.0, call.1), inst, i, s.nextCaller, call.1)
  {
    var svc := s.svcs[inst];
    var call := OnRequest(svc, h, s.nextCaller, p);
    if call.0.nextCorr != svc.nextCorr {
      var op := NewOp(h, s.nextCaller, svc.nextCorr, p);
      StartOutcome(s.store.log, h, svc, s.nextCaller, p);
    }
  }

  lemma StartOutcome(log: seq<Write>, h: Host, svc: Svc, caller: nat, p: Payload)
    ensures var r := Settle(h, Start(h, svc.challenges, NewOp(h, caller, svc.nextCorr, p)).1);
            && (r.op.Some? ==> r.op.value.caller == caller && r.replies == [])
            && (r.op.None? ==> |r.replies| == 1 && r.replies[0].caller == caller)
  {
    var who := Who(0, svc.nextCorr);
    var op := NewOp(h, caller, svc.nextCorr, p);
    var t := Start(h, svc.challenges, op).1;
    StartOk(log, who, h, svc.challenges, caller, svc.nextCorr, p);
    SettleOk(log, who, h, op, t);
  }

  lemma PresentAnswers(s: System, inst: nat, h: Host, p: Payload)
    requires Inv(s) && AnswersOk(s) && inst in s.svcs
    ensures AnswersOk(Presented(s, inst, OnRequest(s.svcs[inst], h, s.nextCaller, p)))
  {
    var svc := s.svcs[inst];
    var call := OnRequest(svc, h, s.nextCaller, p);
    var who := Who(inst, svc.nextCorr);
    var s' := s.(nextCaller := s.nextCaller + 1, presentedTo := s.presentedTo[s.nextCaller := inst]);
    var i := if call.0.nextCorr == who.corr then |svc.ops| else FreeSlot(svc.ops);
    InvSpawned(s);
    NewIsBut(s, s', inst, i);
    RequestResolves(s, s', inst, h, p);
    ResolvesKeeps(s', Presented(s, inst, call), inst, i, s.nextCaller, call.1);
  }

  lemma StepAnswers(s: System, a: Action)
    requires Inv(s) && AnswersOk(s) && Enabled(s, a)
    ensures AnswersOk(Apply(s, a))
  {
    hide Inv, AnswersOk, OnRequest, OnLedger, OnCustodian, Tick, Store, Served;
    match a {
      case Present(i, h, p) => PresentAnswers(s, i, h, p);
      case Deliver(u, h) => DeliverAnswers(s, u, h, s.net[u], s.svcs[s.net[u].who.inst]);
      case CustodianSays(i, h, corr, c, ok, env) => CustodianAnswers(s, i, h, corr, c, ok, env);
      case ClockTick(i, h) => TickAnswers(s, i, h);
      case _ => OtherActionAnswers(s, a);
    }
  }

  lemma OtherActionAnswers(s: System, a: Action)
    requires Inv(s) && AnswersOk(s) && Enabled(s, a)
    requires !a.Present? && !a.Deliver? && !a.CustodianSays? && !a.ClockTick?
    ensures AnswersOk(Apply(s, a))
  {
    InvSpawned(s);
    UntouchedKeeps(s, Apply(s, a));
  }

  lemma {:induction false} RunAnswers(actions: seq<Action>)
    requires IsRun(actions)
    ensures AnswersOk(After(actions))
  {
    if actions != [] {
      RunKeeps(actions[..|actions| - 1]);
      RunAnswers(actions[..|actions| - 1]);
      StepAnswers(After(actions[..|actions| - 1]), actions[|actions| - 1]);
    }
  }

  // ── What it comes to ───────────────────────────────────────────────────

  ghost predicate HeldSomewhere(s: System, c: nat) {
    exists inst, i: nat :: Waits(s.svcs, inst, i, c)
  }

  /** No request is answered twice; none is answered while a slot holds it;
      and one that was presented to an instance still up is answered as soon
      as no slot holds it. */
  lemma AnsweredExactlyOnce(s: System, c: nat)
    requires Reached(s) && c < s.nextCaller
    ensures forall m: nat, n: nat | m < |s.answers| && n < |s.answers| ::
              s.answers[m].reply.caller == c == s.answers[n].reply.caller ==> m == n
    ensures HeldSomewhere(s, c) ==> !Answered(s.answers, c)
    ensures c in s.presentedTo && (s.presentedTo[c] in s.svcs ==> HeldSomewhere(s, c) || Answered(s.answers, c))
    ensures forall x, y, i: nat, j: nat :: Waits(s.svcs, x, i, c) && Waits(s.svcs, y, j, c) ==> x == y && i == j
  {
    var actions :| IsRun(actions) && After(actions) == s;
    RunAnswers(actions);
    assert Accounted(s, c);
    forall x, y, i: nat, j: nat | Waits(s.svcs, x, i, c) && Waits(s.svcs, y, j, c) ensures x == y && i == j {
      assert WaitingOk(s, x, i, c) && WaitingOk(s, y, j, c);
    }
  }
}
