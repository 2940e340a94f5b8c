/** Every operation ends: each message it hears brings it closer to its
    answer, except in one case of the erasure's sweep, and ticks past the
    deadlines end it in any case. */
module StorageKeyProgress {
  import opened Basics
  import opened StorageKey
  import opened Ledger
  import opened StorageKeyService

  // ── Ledger replies ─────────────────────────────────────────────────────

  /** The sweep's part: two requests for each epoch left to visit. */
  function SweepRank(op: Op): nat { 2 * (U32_MAX - op.cursor) }

  /** An upper bound on the ledger replies an operation still has to hear. */
  function Rank(op: Op): nat {
    match op.stage
    case WriteAudit => 1
    case DeleteSet | CasSet | PutTicket | PutChain | Custodians | EraseCustodians => 2
    case GetOldSet => 3
    case ConsumeTicket => 3
    case ClaimReplay => 4
    case GetSet | GetChain => 5
    case GetTicket => 6
    case GetDevice => 7
    case EraseDeleteSet => 3 + SweepRank(op)
    case EraseGetSet => 4 + SweepRank(op)
    case CasGrant => 5 + 2 * U32_MAX
    case PutSet => 6 + 2 * U32_MAX
    case PutGrant | GetCurrentSet => 7 + 2 * U32_MAX
    case GetGrant => 8 + 2 * U32_MAX
    case Starting => 9 + 2 * U32_MAX
  }

  /** The sweep's cursor can still reach past the last epoch it visits. */
  predicate SweepCanEnd(op: Op) {
    op.stage == EraseGetSet || op.stage == EraseDeleteSet ==> op.cursor < U32_MAX || op.audit.epoch < U32_MAX - 1
  }

  /** What a turn may leave: an operation closer to its end, or a decision. */
  predicate Closer(op: Op, t: Turn) { t.verdict.Next? ==> Rank(t.verdict.op) < Rank(op) }

  lemma AfterGrantIsCloser(h: Host, op: Op, held: Record)
    ensures var t := AfterGrant(h, op, held);
            t.verdict.Next? ==> t.verdict.op.stage != GetGrant && t.verdict.op.stage != PutGrant && t.verdict.op.stage != Starting
  {
  }

  lemma GrantReadIsCloser(h: Host, op: Op, status: Status, etag: Etag, value: Value)
    requires op.stage == GetGrant
    ensures Closer(op, GrantRead(h, op, status, etag, value))
  {
    hide AfterGrant;
    if value.Rec? {
      AfterGrantIsCloser(h, op.(grant := Held(value.rec, etag)), value.rec);
    }
  }

  lemma SweepIsCloser(h: Host, op: Op, status: Status, etag: Etag, value: Value)
    requires op.stage == EraseGetSet || op.stage == EraseDeleteSet
    requires SweepCanEnd(op)
    ensures Closer(op, if op.stage == EraseGetSet then SweepRead(h, op, status, etag, value) else SweepDeleted(h, op, status))
  {
  }

  lemma SwapIsCloser(h: Host, op: Op, status: Status)
    requires op.stage == CasGrant
    ensures Closer(op, GrantSwapped(h, op, status))
  {
  }

  lemma ReadIsCloser(h: Host, op: Op, status: Status, etag: Etag, value: Value)
    requires op.stage == GetSet || op.stage == GetChain || op.stage == GetCurrentSet || op.stage == GetTicket
    ensures Closer(op, Advance(h, op, status, etag, value))
  {
    hide RecordSet, Decide, Renew, RotateKey;
    match op.stage
    case GetSet => if value.Rec? { SetIsCloser(h, op.(set_ := Held(value.rec, etag)), value.rec); }
    case GetChain =>
      RenewIsCloser(h, op);
      RenewIsCloser(h, op.(chain := ChainHead(if value.Rec? then DigestOf(value.rec) else NoDigest, etag)));
    case GetCurrentSet =>
      if value.Rec? && op.grant.Held? { RotateIsCloser(h, op.(set_ := Held(value.rec, etag)), op.grant.rec); }
    case GetTicket =>
  }

  lemma SetIsCloser(h: Host, op: Op, set_: Record)
    requires op.stage == GetSet
    ensures Closer(op, RecordSet(h, op, set_)) && Closer(op, Decide(h, op, set_))
  {
    hide CheckCustodySet, DecideRelease;
  }

  lemma RenewIsCloser(h: Host, op: Op)
    requires op.stage == GetChain
    ensures Closer(op, Renew(h, op))
  {
    hide DecideRenewal;
  }

  lemma RotateIsCloser(h: Host, op: Op, held: Record)
    requires op.stage == GetCurrentSet
    ensures Closer(op, RotateKey(h, op, held))
  {
    hide RetainedOf, RetainedPush;
  }

  lemma WriteIsCloser(h: Host, op: Op, status: Status, etag: Etag, value: Value)
    requires op.stage != GetGrant && op.stage != CasGrant && op.stage != EraseGetSet && op.stage != EraseDeleteSet
    requires op.stage != GetSet && op.stage != GetChain && op.stage != GetCurrentSet && op.stage != GetTicket
    requires op.stage != WriteAudit && op.stage != Starting && !AwaitsCustodians(op.stage)
    ensures Closer(op, Advance(h, op, status, etag, value))
  {
  }

  lemma AdvanceIsCloser(h: Host, op: Op, status: Status, etag: Etag, value: Value)
    requires op.stage != Starting && op.stage != WriteAudit && !AwaitsCustodians(op.stage) && SweepCanEnd(op)
    ensures Closer(op, Advance(h, op, status, etag, value))
  {
    if op.stage == GetGrant {
      GrantReadIsCloser(h, op, status, etag, value);
    } else if op.stage == EraseGetSet || op.stage == EraseDeleteSet {
      SweepIsCloser(h, op, status, etag, value);
    } else if op.stage == CasGrant {
      SwapIsCloser(h, op, status);
    } else if op.stage == GetSet || op.stage == GetChain || op.stage == GetCurrentSet || op.stage == GetTicket {
      ReadIsCloser(h, op, status, etag, value);
    } else {
      WriteIsCloser(h, op, status, etag, value);
    }
  }

  lemma SettledIsCloser(h: Host, op: Op, t: Turn)
    requires Closer(op, t) && op.stage != WriteAudit
    ensures Settle(h, t).op.Some? ==> Rank(Settle(h, t).op.value) < Rank(op)
  {
  }

  /** A reply that reaches an operation frees its slot or brings it closer. */
  lemma RepliesBringItCloser(h: Host, op: Op, status: Status, etag: Etag, value: Value)
    requires op.stage != Starting && !AwaitsCustodians(op.stage) && SweepCanEnd(op)
    ensures var r := OnLedgerOp(h, op, status, etag, value);
            r.op.Some? ==> Rank(r.op.value) < Rank(op)
  {
    if op.stage != WriteAudit {
      AdvanceIsCloser(h, op, status, etag, value);
      SettledIsCloser(h, op, Advance(h, op, status, etag, value));
    }
  }

  // ── Custodian answers ──────────────────────────────────────────────────

  /** How many custodians have not answered. */
  function Unanswered(op: Op): nat { |{0, 1, 2} - op.answered| }

  /** A custodian's answer frees the slot, takes the operation to its audit
      write, or leaves fewer to wait for; unless nobody asked for it or it was
      given before, and then it changes nothing. */
  lemma AnswersBringItCloser(h: Host, op: Op, c: nat, ok: bool, env: Envelope)
    requires AwaitsCustodians(op.stage)
    ensures var r := OnCustodianOp(h, op, c, ok, env);
            if c <= 2 && c in op.asked && c !in op.answered then
              r.op.Some? ==> Rank(r.op.value) < Rank(op) || (r.op.value.stage == op.stage && Unanswered(r.op.value) < Unanswered(op))
            else r == Outcome(Some(op), [], [], [], {})
  {
    if c <= 2 && c in op.asked && c !in op.answered {
      OneFewer(op.answered, c);
      if op.stage == Custodians { ShareAnswered(h, op, c, ok, env); } else { ErasureAnswered(op, c, ok); }
      hide CustodianResult, EraseResult, Settle, Rank;
      AnswerSettles(h, op, if op.stage == EraseCustodians then EraseResult(op, c, ok) else CustodianResult(h, op, c, ok, env), c);
    } else {
      hide CheckAnswer, Release, SendOrder, Rank, Unanswered;
    }
  }

  lemma AnswerSettles(h: Host, op: Op, t: Turn, c: nat)
    requires AwaitsCustodians(op.stage)
    requires t.verdict.Next? ==> t.verdict.op.stage == op.stage && t.verdict.op.answered == op.answered + {c}
    ensures var r := Settle(h, t);
            r.op.Some? ==> (Rank(r.op.value) < Rank(op) || (r.op.value.stage == op.stage && r.op.value.answered == op.answered + {c}))
  {
  }

  lemma ShareAnswered(h: Host, op: Op, c: nat, ok: bool, env: Envelope)
    requires op.stage == Custodians && c <= 2 && c in op.asked && c !in op.answered
    ensures var t := CustodianResult(h, op, c, ok, env);
            t.verdict.Next? ==> t.verdict.op.stage == op.stage && t.verdict.op.answered == op.answered + {c}
  {
    hide CheckAnswer, WriteBundle;
  }

  lemma ErasureAnswered(op: Op, c: nat, ok: bool)
    requires op.stage == EraseCustodians && c <= 2 && c in op.asked && c !in op.answered
    ensures var t := EraseResult(op, c, ok);
            t.verdict.Next? ==> t.verdict.op.stage == op.stage && t.verdict.op.answered == op.answered + {c}
  {
  }

  lemma OneFewer(answered: set<nat>, c: nat)
    requires c <= 2 && c !in answered
    ensures |{0, 1, 2} - (answered + {c})| < |{0, 1, 2} - answered|
  {
    assert {0, 1, 2} - answered == ({0, 1, 2} - (answered + {c})) + {c};
  }

  // ── The sweep ──────────────────────────────────────────────────────────

  /** The sweeping operation after `n` epochs turned out to have no set. */
  function Swept(h: Host, op: Op, n: nat): Op {
    if n == 0 then op
    else
      var before := Swept(h, op, n - 1);
      if before.stage == EraseGetSet then SweepRead(h, before, StNotFound, 0, Blank).verdict.op else before
  }

  ghost predicate SweepEnds(h: Host, op: Op) {
    exists n: nat :: Swept(h, op, n).stage != EraseGetSet
  }

  lemma SweptOnce(h: Host, op: Op)
    requires h.ledgerUp && op.stage == EraseGetSet
    ensures var o := SweepRead(h, op, StNotFound, 0, Blank).verdict.op;
            && o.audit == op.audit && o.cursor == SatInc(op.cursor)
            && (o.stage == EraseGetSet <==> SatInc(op.cursor) <= SatInc(op.audit.epoch))
  {
  }

  /** Past the last epoch the sweep visits, it asks nothing more. */
  lemma {:induction false} SweptFar(h: Host, op: Op, n: nat)
    requires h.ledgerUp && op.stage == EraseGetSet && op.cursor <= SatInc(op.audit.epoch) && op.audit.epoch < U32_MAX - 1
    ensures Swept(h, op, n).audit == op.audit
    ensures Swept(h, op, n).stage == EraseGetSet <==> op.cursor + n <= op.audit.epoch + 1
    ensures Swept(h, op, n).stage == EraseGetSet ==> Swept(h, op, n).cursor == op.cursor + n
  {
    if n > 0 {
      SweptFar(h, op, n - 1);
      if Swept(h, op, n - 1).stage == EraseGetSet { SweptOnce(h, Swept(h, op, n - 1)); }
    }
  }

  /** From epoch 2^32 - 2 on, the cursor stops short and the sweep does not. */
  lemma {:induction false} SweptNowhere(h: Host, op: Op, n: nat)
    requires h.ledgerUp && op.stage == EraseGetSet && op.audit.epoch >= U32_MAX - 1
    ensures Swept(h, op, n).stage == EraseGetSet && Swept(h, op, n).audit == op.audit
  {
    if n > 0 {
      SweptNowhere(h, op, n - 1);
      SweptOnce(h, Swept(h, op, n - 1));
    }
  }

  /** The erasure's sweep reaches the custodians if and only if the grant's
      epoch is below 2^32 - 2: both increments saturate, so from there on the
      cursor never passes the last epoch it is compared with. */
  lemma SweepEndsExactlyBelow(h: Host, op: Op)
    requires h.ledgerUp && op.stage == EraseGetSet && op.cursor <= SatInc(op.audit.epoch)
    ensures SweepEnds(h, op) <==> op.audit.epoch < 0xFFFF_FFFE
  {
    if op.audit.epoch < U32_MAX - 1 {
      var n := op.audit.epoch + 2 - op.cursor;
      SweptFar(h, op, n);
      assert Swept(h, op, n).stage != EraseGetSet;
    } else if SweepEnds(h, op) {
      var n: nat :| Swept(h, op, n).stage != EraseGetSet;
      SweptNowhere(h, op, n);
    }
  }

  /** Such an operation: an erasure of a resource at the last epoch but one. */
  lemma SweepWithoutEnd(h: Host, op: Op)
    requires h.ledgerUp
    ensures !SweepEnds(h, op.(code := EraseOp, stage := EraseGetSet, cursor := 1, audit := op.audit.(epoch := 0xFFFF_FFFE)))
  {
    SweepEndsExactlyBelow(h, op.(code := EraseOp, stage := EraseGetSet, cursor := 1, audit := op.audit.(epoch := 0xFFFF_FFFE)));
  }

  // ── Ticks ──────────────────────────────────────────────────────────────

  /** How many expiries an operation can still meet: one before its audit
      write and one in it. */
  function Lives(o: Option<Op>): nat {
    match o
    case None => 0
    case Some(op) => if op.stage == WriteAudit then 1 else 2
  }

  function Left(ops: seq<Option<Op>>): nat {
    if ops == [] then 0 else Lives(ops[0]) + Left(ops[1..])
  }

  lemma {:induction false} LeftAfter(ops: seq<Option<Op>>, i: nat, o: Option<Op>)
    requires i < |ops|
    ensures Left(ops[i := o]) == Left(ops) - Lives(ops[i]) + Lives(o)
  {
    if i == 0 {
      assert ops[0 := o][1..] == ops[1..];
    } else {
      LeftAfter(ops[1..], i - 1, o);
      assert ops[i := o][1..] == ops[1..][i - 1 := o];
    }
  }

  lemma {:induction false} LeftBound(ops: seq<Option<Op>>)
    ensures Left(ops) <= 2 * |ops|
    ensures forall i :: Left(ops) == 0 && 0 <= i < |ops| ==> ops[i].None?
  {
    if ops != [] {
      LeftBound(ops[1..]);
      assert forall i :: 0 < i < |ops| ==> ops[i] == ops[1..][i - 1];
    }
  }

  lemma ExpiryCosts(h: Host, op: Op)
    ensures Lives(OnExpiredOp(h, op).op) < Lives(Some(op))
  {
  }

  /** A tick past every deadline still running uses one of them up. */
  lemma TickProgresses(s: Svc, h: Host)
    ensures var s' := Tick(s, h).0;
            && |s'.ops| == |s.ops|
            && (if exists i :: 0 <= i < |s.ops| && IsExpired(s.ops[i], h.nowMs)
                then Left(s'.ops) < Left(s.ops) else s'.ops == s.ops)
  {
    var i := ExpiredSlot(s.ops, h.nowMs);
    if i < |s.ops| {
      ExpiryCosts(h, s.ops[i].value);
      LeftAfter(s.ops, i, OnExpiredOp(h, s.ops[i].value).op);
    }
  }

  function Ticked(s: Svc, hosts: seq<Host>): Svc
    decreases |hosts|
  {
    if hosts == [] then s else Ticked(Tick(s, hosts[0]).0, hosts[1..])
  }

  /** Each tick comes after the deadlines that run when it comes. */
  ghost predicate KeepUp(s: Svc, hosts: seq<Host>)
    decreases |hosts|
  {
    hosts != [] ==>
      && (forall i :: 0 <= i < |s.ops| && s.ops[i].Some? ==> hosts[0].nowMs >= s.ops[i].value.deadlineMs)
      && KeepUp(Tick(s, hosts[0]).0, hosts[1..])
  }

  ghost predicate AllFree(ops: seq<Option<Op>>, n: nat) {
    |ops| == n && forall i :: 0 <= i < n ==> ops[i].None?
  }

  /** With nothing else heard, two ticks for each slot free every slot of the
      service, whatever stage its operations are in. */
  lemma {:induction false} TicksEndEverything(s: Svc, hosts: seq<Host>)
    requires KeepUp(s, hosts) && |hosts| >= Left(s.ops)
    ensures AllFree(Ticked(s, hosts).ops, |s.ops|)
    ensures Left(s.ops) <= 2 * |s.ops|
    decreases |hosts|
  {
    LeftBound(s.ops);
    if hosts == [] {
      assert Ticked(s, hosts) == s;
    } else {
      var next := Tick(s, hosts[0]).0;
      OneTick(s, hosts[0]);
      TicksEndEverything(next, hosts[1..]);
      assert Ticked(s, hosts) == Ticked(next, hosts[1..]);
    }
  }

  /** A tick past every deadline uses one up, while there is one. */
  lemma OneTick(s: Svc, h: Host)
    requires forall i :: 0 <= i < |s.ops| && s.ops[i].Some? ==> h.nowMs >= s.ops[i].value.deadlineMs
    ensures |Tick(s, h).0.ops| == |s.ops|
    ensures Left(Tick(s, h).0.ops) < Left(s.ops) || Left(Tick(s, h).0.ops) == 0
  {
    TickProgresses(s, h);
    if Left(s.ops) > 0 {
      LeftPositive(s.ops);
      var i :| 0 <= i < |s.ops| && s.ops[i].Some?;
      assert IsExpired(s.ops[i], h.nowMs);
    }
  }

  lemma {:induction false} LeftPositive(ops: seq<Option<Op>>)
    requires Left(ops) > 0
    ensures exists i :: 0 <= i < |ops| && ops[i].Some?
  {
    if ops[0].None? {
      LeftPositive(ops[1..]);
      var i :| 0 <= i < |ops[1..]| && ops[1..][i].Some?;
      assert ops[i + 1].Some?;
    }
  }
}
