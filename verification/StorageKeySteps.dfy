/** Every action of the system keeps the invariant. */
module StorageKeySteps {
  import opened Basics
  import opened StorageKey
  import opened Ledger
  import opened StorageKeyService
  import opened StorageKeySystem
  import opened StorageKeyInvariants
  import opened StorageKeyTurns
  import opened StorageKeyLog

  // ── The ledger serves a request ────────────────────────────────────────

  /** A write that is neither a grant nor a set. */
  lemma OtherStored(s: Storage, k: Key, v: Value, writer: Writer)
    requires CustodyOk(s) && !k.SetKey? && !k.GrantKey?
    ensures CustodyOk(Store(s, k, v, writer))
  {
    var t := Store(s, k, v, writer);
    assert forall i: nat :: i < |s.log| ==> t.log[i] == s.log[i];
    forall r | CurrentGrant(t, r).Some? && CurrentGrant(t, r).value.b.kind == Grant
      ensures SetsOk(t, r, CurrentGrant(t, r).value)
    {
      assert CurrentGrant(t, r) == CurrentGrant(s, r);
      SetsElsewhere(s, k, v, writer, r, CurrentGrant(s, r).value);
    }
  }

  /** A grant written when its own resource's sets are right for it. */
  lemma GrantStored(s: Storage, r0: Resource, v: Value, writer: Writer)
    requires CustodyOk(s)
    requires v.Rec? && v.rec.b.kind == Grant ==> SetsOk(Store(s, GrantKey(r0), v, writer), r0, v.rec)
    ensures CustodyOk(Store(s, GrantKey(r0), v, writer))
  {
    var k := GrantKey(r0);
    var t := Store(s, k, v, writer);
    assert forall i: nat :: i < |s.log| ==> t.log[i] == s.log[i];
    forall r | CurrentGrant(t, r).Some? && CurrentGrant(t, r).value.b.kind == Grant
      ensures SetsOk(t, r, CurrentGrant(t, r).value)
    {
      if r != r0 {
        assert CurrentGrant(t, r) == CurrentGrant(s, r);
        SetsElsewhere(s, k, v, writer, r, CurrentGrant(s, r).value);
      }
    }
  }

  /** A set written when its own resource's sets stay right. */
  lemma SetStored(s: Storage, r0: Resource, e: U32, v: Value, writer: Writer)
    requires CustodyOk(s) && GrantKey(r0) in s.ledger
    requires CurrentGrant(s, r0).Some? && CurrentGrant(s, r0).value.b.kind == Grant ==>
      SetsOk(Store(s, SetKey(r0, e), v, writer), r0, CurrentGrant(s, r0).value)
    ensures CustodyOk(Store(s, SetKey(r0, e), v, writer))
  {
    var k := SetKey(r0, e);
    var t := Store(s, k, v, writer);
    assert forall i: nat :: i < |s.log| ==> t.log[i] == s.log[i];
    forall r | CurrentGrant(t, r).Some? && CurrentGrant(t, r).value.b.kind == Grant
      ensures SetsOk(t, r, CurrentGrant(t, r).value)
    {
      assert CurrentGrant(t, r) == CurrentGrant(s, r);
      if r != r0 {
        SetsElsewhere(s, k, v, writer, r, CurrentGrant(s, r).value);
      }
    }
  }

  /** An unwritten permanent key has no history. */
  lemma AbsentIsNew(s: Storage, k: Key)
    requires LedgerOk(s) && k !in s.ledger && Permanent(k)
    ensures forall i: nat :: i < |s.log| ==> s.log[i].key != k
  {
  }

  lemma GrantExists(s: Storage, r: Resource)
    requires LogOk(s.log) && LedgerOk(s)
    requires exists i: nat :: i < |s.log| && s.log[i].key == GrantKey(r)
    ensures CurrentGrant(s, r).Some? && GrantKey(r) in s.ledger
    ensures CurrentGrant(s, r).value.b.kind == Grant ==> IsGrant(CurrentGrant(s, r).value)
    ensures CurrentGrant(s, r).value.b.res == r
  {
    var i: nat :| i < |s.log| && s.log[i].key == GrantKey(r);
    CurrentIsLatest(s, r, i);
    assert WroteAt(s.log, s.ledger[GrantKey(r)].etag, GrantKey(r), s.ledger[GrantKey(r)].value);
  }

  lemma PutTaken(s: Storage, who: Who, k: Key, v: Value)
    requires StoreOk(s) && ReqOk(s.log, who, PutIfAbsent(k, v)) && k !in s.ledger
    ensures StoreOk(Store(s, k, v, ByOp(who)))
  {
    if Permanent(k) { AbsentIsNew(s, k); }
    AppendOk(s.log, Write(k, v, ByOp(who)), None);
    StoreKeepsLedger(s, k, v, ByOp(who));
    match k {
      case GrantKey(r) =>
        FirstGrantSets(s, r, v, ByOp(who));
        GrantStored(s, r, v, ByOp(who));
      case SetKey(r, e) => CreationTaken(s, who, r, e, v);
      case _ => OtherStored(s, k, v, ByOp(who));
    }
  }

  lemma CreationTaken(s: Storage, who: Who, r: Resource, e: U32, v: Value)
    requires StoreOk(s) && First(SetKey(r, e), v) && CreationBacked(s.log, r, e, v.rec.b.setId) && SetKey(r, e) !in s.ledger
    ensures CustodyOk(Store(s, SetKey(r, e), v, ByOp(who)))
  {
    GrantExists(s, r);
    var g := CurrentGrant(s, r).value;
    if g.b.kind == Grant {
      CreationNow(s, r, e, v.rec.b.setId, g);
      CreatedSets(s, r, e, v, ByOp(who), g);
    }
    SetStored(s, r, e, v, ByOp(who));
  }

  lemma SwapTaken(s: Storage, who: Who, k: Key, e: Etag, v: Value)
    requires StoreOk(s) && ReqOk(s.log, who, CompareAndSwap(k, e, v))
    requires k in s.ledger && s.ledger[k].etag == e
    ensures StoreOk(Store(s, k, v, ByOp(who)))
  {
    assert WroteAt(s.log, e, k, s.ledger[k].value);
    AppendOk(s.log, Write(k, v, ByOp(who)), Some(e));
    StoreKeepsLedger(s, k, v, ByOp(who));
    match k {
      case GrantKey(r) => GrantSwapTaken(s, who, r, e, v);
      case SetKey(r, x) => RecordingTaken(s, who, r, x, v);
      case _ => OtherStored(s, k, v, ByOp(who));
    }
  }

  lemma GrantSwapTaken(s: Storage, who: Who, r: Resource, e: Etag, v: Value)
    requires StoreOk(s) && ReqOk(s.log, who, CompareAndSwap(GrantKey(r), e, v))
    requires GrantKey(r) in s.ledger && s.ledger[GrantKey(r)].etag == e
    ensures CustodyOk(Store(s, GrantKey(r), v, ByOp(who)))
  {
    assert WroteAt(s.log, e, GrantKey(r), s.ledger[GrantKey(r)].value);
    if v.rec.b.kind == Grant {
      NextGrantSets(s, r, v, ByOp(who));
    }
    GrantStored(s, r, v, ByOp(who));
  }

  lemma RecordingTaken(s: Storage, who: Who, r: Resource, x: U32, v: Value)
    requires StoreOk(s) && SetKey(r, x) in s.ledger && WasAdmitted(s.log, r, x)
    requires Succ(SetKey(r, x), s.ledger[SetKey(r, x)].value, v)
    ensures CustodyOk(Store(s, SetKey(r, x), v, ByOp(who)))
  {
    GrantExists(s, r);
    var g := CurrentGrant(s, r).value;
    if g.b.kind == Grant {
      AdmittedNow(s, r, x, g);
      RecordedSets(s, r, x, v, ByOp(who), g);
    }
    SetStored(s, r, x, v, ByOp(who));
  }

  lemma DeletedElsewhere(s: Storage, t: Storage, k: Key, r: Resource, g: Record)
    requires SetsOk(s, r, g) && k.SetKey? && k.res != r && t == s.(ledger := s.ledger - {k})
    ensures SetsOk(t, r, g)
  {
    assert forall x: U32 :: SetKey(r, x) != k;
    assert forall x :: SetHeld(t, r, x) == SetHeld(s, r, x);
  }

  lemma DeleteTaken(s: Storage, who: Who, k: Key, e: Etag)
    requires StoreOk(s) && k.SetKey? && Dead(s.log, k.res, k.epoch)
    ensures StoreOk(Effect(s, who, Delete(k, e)))
  {
    DeleteKeepsLedger(s, who, k, e);
    DeleteKeepsCustody(s, who, k, e);
  }

  lemma DeleteKeepsCustody(s: Storage, who: Who, k: Key, e: Etag)
    requires StoreOk(s) && k.SetKey? && Dead(s.log, k.res, k.epoch)
    ensures CustodyOk(Effect(s, who, Delete(k, e)))
  {
    hide LogOk, LedgerOk, SetsOk, Dead;
    var t := Effect(s, who, Delete(k, e));
    forall r | CurrentGrant(t, r).Some? && CurrentGrant(t, r).value.b.kind == Grant
      ensures SetsOk(t, r, CurrentGrant(t, r).value)
    {
      DeletedForOne(s, who, k, e, r);
    }
  }

  lemma DeletedForOne(s: Storage, who: Who, k: Key, e: Etag, r: Resource)
    requires StoreOk(s) && k.SetKey? && Dead(s.log, k.res, k.epoch)
    requires CurrentGrant(s, r).Some? && CurrentGrant(s, r).value.b.kind == Grant
    ensures SetsOk(Effect(s, who, Delete(k, e)), r, CurrentGrant(s, r).value)
  {
    hide LogOk, LedgerOk, Dead;
    if r == k.res {
      DeletionTaken(s, who, r, k.epoch, e);
    } else {
      DeletedElsewhere(s, Effect(s, who, Delete(k, e)), k, r, CurrentGrant(s, r).value);
    }
  }

  lemma DeletionTaken(s: Storage, who: Who, r: Resource, x: U32, e: Etag)
    requires StoreOk(s) && Dead(s.log, r, x) && CurrentGrant(s, r).Some? && CurrentGrant(s, r).value.b.kind == Grant
    ensures SetsOk(Effect(s, who, Delete(SetKey(r, x), e)), r, CurrentGrant(s, r).value)
  {
    GrantExists(s, r);
    var g := CurrentGrant(s, r).value;
    DeadNow(s, r, x, g);
    DeletedSets(s, who, r, x, e, g);
  }

  /** A request that is safe whenever it arrives is safe now. */
  lemma TakenOk(s: Storage, who: Who, req: Request)
    requires StoreOk(s) && ReqOk(s.log, who, req)
    ensures StoreOk(Taken(s, who, req)) && Grows(s.log, Taken(s, who, req).log)
  {
    if Takes(s, req) {
      match req {
        case PutIfAbsent(k, v) => PutTaken(s, who, k, v);
        case CompareAndSwap(k, e, v) => SwapTaken(s, who, k, e, v);
        case Delete(k, e) => DeleteTaken(s, who, k, e);
        case Get(_) => assert false;
      }
    }
  }

  /** The honest reply to a served request is true. */
  lemma HonestAckOk(s: Storage, who: Who, req: Request)
    requires LedgerOk(s)
    ensures AckOk(Taken(s, who, req).log, HonestAck(s, who, req))
  {
    match req {
      case PutIfAbsent(k, v) => assert Takes(s, req) ==> Taken(s, who, req).log[|s.log|] == Write(k, v, ByOp(who));
      case CompareAndSwap(k, _, v) => assert Takes(s, req) ==> Taken(s, who, req).log[|s.log|] == Write(k, v, ByOp(who));
      case Get(_) =>
      case Delete(_, _) =>
    }
  }

  // ── Everything else stays ──────────────────────────────────────────────

  lemma NetStays(s: System, t: System)
    requires NetOk(s) && Grows(s.store.log, t.store.log)
    requires t.net == s.net && t.nextUid == s.nextUid && t.svcs == s.svcs && t.nextInst == s.nextInst
    ensures NetOk(t)
  {
    forall u | u in t.net ensures PacketOk(t, u) {
      assert PacketOk(s, u);
      var p := s.net[u];
      if p.Ask? { ReqStays(s.store.log, t.store.log, p.who, p.req); } else { AckStays(s.store.log, t.store.log, p); }
    }
  }

  lemma SlotStays(s: System, t: System, inst: nat, i: nat)
    requires Live(s, inst, i) && SlotOk(s, inst, i) && Grows(s.store.log, t.store.log) && t.net == s.net && t.svcs == s.svcs
    ensures SlotOk(t, inst, i)
  {
    var op := OpAt(s, inst, i);
    if op.refusal.None? {
      OpStays(s.store.log, t.store.log, Who(inst, op.corr), op);
      assert Pairing(t, inst, op);
    }
  }

  lemma InstanceStays(s: System, t: System, inst: nat)
    requires inst in s.svcs && InstanceOk(s, inst) && Grows(s.store.log, t.store.log)
    requires t.net == s.net && t.svcs == s.svcs && t.nextInst == s.nextInst
    ensures InstanceOk(t, inst)
  {
    forall i: nat | Live(t, inst, i) ensures SlotOk(t, inst, i) {
      assert Live(s, inst, i);
      SlotStays(s, t, inst, i);
    }
  }

  lemma InstancesStay(s: System, t: System)
    requires InstancesOk(s) && Grows(s.store.log, t.store.log)
    requires t.net == s.net && t.svcs == s.svcs && t.nextInst == s.nextInst
    ensures InstancesOk(t)
  {
    forall inst | inst in t.svcs ensures InstanceOk(t, inst) {
      InstanceStays(s, t, inst);
    }
  }

  lemma OutputsStay(s: System, t: System)
    requires OutputsOk(s) && Grows(s.store.log, t.store.log) && t.answers == s.answers && t.orders == s.orders
    ensures OutputsOk(t)
  {
    OutputStays(s.store.log, t.store.log);
  }

  /** The ledger and its log moved on; nothing else did. */
  lemma StoreMoved(s: System, t: System)
    requires Inv(s) && StoreOk(t.store) && Grows(s.store.log, t.store.log)
    requires t == s.(store := t.store)
    ensures Inv(t)
  {
    NetStays(s, t);
    InstancesStay(s, t);
    OutputsStay(s, t);
  }

  // ── The network ────────────────────────────────────────────────────────

  /** Messages only left, or became replies to what they asked. */
  ghost predicate NetShrinks(s: System, t: System) {
    forall u :: u in t.net ==>
      && u in s.net && t.net[u].who == s.net[u].who && t.net[u].req == s.net[u].req
  }

  lemma NetMoved(s: System, t: System)
    requires Inv(s) && t == s.(net := t.net) && NetShrinks(s, t)
    requires forall u :: u in t.net ==> (t.net[u] == s.net[u] || (t.net[u].Ack? && AckOk(t.store.log, t.net[u])))
    ensures Inv(t)
  {
    forall u | u in t.net ensures PacketOk(t, u) { assert PacketOk(s, u); }
    forall inst | inst in t.svcs ensures InstanceOk(t, inst) { InstanceKeepsNet(s, t, inst); }
  }

  lemma InstanceKeepsNet(s: System, t: System, inst: nat)
    requires inst in s.svcs && InstanceOk(s, inst) && t == s.(net := t.net) && NetShrinks(s, t)
    ensures InstanceOk(t, inst)
  {
    forall i: nat | Live(t, inst, i) ensures SlotOk(t, inst, i) {
      assert Live(s, inst, i);
      SlotKeepsNet(s, t, inst, i);
    }
  }

  lemma SlotKeepsNet(s: System, t: System, inst: nat, i: nat)
    requires Live(s, inst, i) && SlotOk(s, inst, i) && t == s.(net := t.net) && NetShrinks(s, t)
    ensures SlotOk(t, inst, i)
  {
    var op := OpAt(s, inst, i);
    if op.refusal.None? { assert Pairing(t, inst, op); }
  }

  lemma LoseKeeps(s: System, u: nat)
    requires Inv(s)
    ensures Inv(s.(net := s.net - {u}))
  {
    NetMoved(s, s.(net := s.net - {u}));
  }

  /** The request in a packet takes effect, and its reply would be true. */
  lemma ServeStores(s: System, who: Who, req: Request)
    requires Inv(s) && ReqOk(s.store.log, who, req)
    ensures Inv(s.(store := Taken(s.store, who, req)))
    ensures AckOk(Taken(s.store, who, req).log, HonestAck(s.store, who, req))
  {
    TakenOk(s.store, who, req);
    StoreMoved(s, s.(store := Taken(s.store, who, req)));
    HonestAckOk(s.store, who, req);
  }

  lemma AskIsSafe(s: System, u: nat)
    requires Inv(s) && u in s.net && s.net[u].Ask?
    ensures ReqOk(s.store.log, s.net[u].who, s.net[u].req)
  {
    assert PacketOk(s, u);
  }

  /** A reply takes its request's place. */
  lemma ReplyKeeps(s: System, u: nat, ack: Packet)
    requires Inv(s) && u in s.net && ack.Ack? && ack.who == s.net[u].who && ack.req == s.net[u].req
    requires AckOk(s.store.log, ack)
    ensures Inv(s.(net := s.net[u := ack]))
  {
    NetMoved(s, s.(net := s.net[u := ack]));
  }

  lemma ServeKeeps(s: System, u: nat, how: Serving)
    requires Inv(s) && Enabled(s, Serve(u, how))
    ensures Inv(Served(s, u, how))
  {
    var p := s.net[u];
    var m := if how.Declined? then s else s.(store := Taken(s.store, p.who, p.req));
    if !how.Declined? {
      AskIsSafe(s, u);
      ServeStores(s, p.who, p.req);
    }
    ReplyKeeps(m, u, Served(s, u, how).net[u]);
  }

  lemma SpawnKeeps(s: System)
    requires Inv(s)
    ensures Inv(s.(svcs := s.svcs[s.nextInst := NewSvc()], nextInst := s.nextInst + 1))
  {
    var t := s.(svcs := s.svcs[s.nextInst := NewSvc()], nextInst := s.nextInst + 1);
    forall u | u in t.net ensures PacketOk(t, u) { assert PacketOk(s, u); }
    forall inst | inst in t.svcs ensures InstanceOk(t, inst) {
      if inst != s.nextInst { InstanceApart(s, t, inst); }
    }
  }

  lemma CrashKeeps(s: System, gone: nat)
    requires Inv(s)
    ensures Inv(s.(svcs := s.svcs - {gone}))
  {
    var t := s.(svcs := s.svcs - {gone});
    forall u | u in t.net ensures PacketOk(t, u) { assert PacketOk(s, u); }
    forall inst | inst in t.svcs ensures InstanceOk(t, inst) { InstanceApart(s, t, inst); }
  }

  /** What happens at other instances leaves one as it is, as long as no
      message of its own appears. */
  lemma InstanceApart(s: System, t: System, inst: nat)
    requires inst in s.svcs && InstanceOk(s, inst) && inst in t.svcs && t.svcs[inst] == s.svcs[inst]
    requires t.store.log == s.store.log && t.nextInst >= s.nextInst
    requires forall u :: u in t.net && t.net[u].who.inst == inst ==> u in s.net && s.net[u] == t.net[u]
    ensures InstanceOk(t, inst)
  {
    forall i: nat | Live(t, inst, i) ensures SlotOk(t, inst, i) {
      assert Live(s, inst, i) && SlotOk(s, inst, i);
      SlotApart(s, t, inst, i);
    }
  }

  lemma SlotApart(s: System, t: System, inst: nat, i: nat)
    requires Live(s, inst, i) && SlotOk(s, inst, i) && Live(t, inst, i) && OpAt(t, inst, i) == OpAt(s, inst, i)
    requires t.store.log == s.store.log && t.svcs[inst].nextCorr >= s.svcs[inst].nextCorr
    requires forall u :: u in t.net && t.net[u].who == Who(inst, OpAt(s, inst, i).corr) ==> u in s.net && s.net[u] == t.net[u]
    ensures SlotOk(t, inst, i)
  {
    var op := OpAt(s, inst, i);
    if op.refusal.None? { assert Pairing(t, inst, op); }
  }

  // ── Calls ──────────────────────────────────────────────────────────────

  /** A call that concerned slot `i`: the operation in it was `who`, or it was
      free and `who` is new. */
  ghost predicate Concerned(s: System, who: Who, i: nat, after: Svc, r: Outcome) {
    && who.inst in s.svcs
    && i < |s.svcs[who.inst].ops|
    && after.ops == s.svcs[who.inst].ops[i := r.op]
    && s.svcs[who.inst].nextCorr <= after.nextCorr
    && who.corr < after.nextCorr
    && (forall j: nat :: Live(s, who.inst, j) && j != i ==> OpAt(s, who.inst, j).corr != who.corr)
    && (r.op.Some? && r.op.value.refusal.None? ==> forall u :: u in s.net ==> s.net[u].who != who)
  }

  /** One more message at most, under a new id. */
  lemma Posted(s: System, who: Who, r: Outcome)
    requires |r.sends| <= 1
    ensures Post(s.net, s.nextUid, who, r.sends)
         == if r.sends == [] then s.net else s.net[s.nextUid := Ask(who, r.sends[0])]
  {
  }

  lemma SaidNet(s: System, who: Who, i: nat, from: Option<Who>, after: Svc, r: Outcome, caller: nat)
    requires NetOk(s) && Concerned(s, who, i, after, r) && OutcomeOk(s.store.log, who, who.corr, caller, r)
    requires who.inst < s.nextInst
    ensures NetOk(Said(s, who.inst, who, from, after, r))
  {
    var t := Said(s, who.inst, who, from, after, r);
    Posted(s, who, r);
    forall u | u in t.net ensures PacketOk(t, u) {
      if u in s.net { assert PacketOk(s, u); }
    }
  }

  lemma SaidOther(s: System, who: Who, i: nat, from: Option<Who>, after: Svc, r: Outcome, j: nat)
    requires who.inst in s.svcs && InstanceOk(s, who.inst) && Concerned(s, who, i, after, r) && |r.sends| <= 1
    requires Live(s, who.inst, j) && j != i
    ensures SlotOk(Said(s, who.inst, who, from, after, r), who.inst, j)
  {
    var t := Said(s, who.inst, who, from, after, r);
    Posted(s, who, r);
    assert SlotOk(s, who.inst, j);
    SlotApart(s, t, who.inst, j);
  }

  lemma SaidOwn(s: System, who: Who, i: nat, from: Option<Who>, after: Svc, r: Outcome, caller: nat)
    requires NetOk(s) && Concerned(s, who, i, after, r) && OutcomeOk(s.store.log, who, who.corr, caller, r) && r.op.Some?
    ensures SlotOk(Said(s, who.inst, who, from, after, r), who.inst, i)
  {
    var t := Said(s, who.inst, who, from, after, r);
    Posted(s, who, r);
    assert OpAt(t, who.inst, i) == r.op.value;
    if r.op.value.refusal.None? {
      assert forall u :: u in t.net && t.net[u].who == who ==> u == s.nextUid && r.sends != [];
      assert Pairing(t, who.inst, r.op.value);
    }
  }

  lemma SaidInstance(s: System, who: Who, i: nat, from: Option<Who>, after: Svc, r: Outcome, caller: nat)
    requires NetOk(s) && who.inst in s.svcs && InstanceOk(s, who.inst)
    requires Concerned(s, who, i, after, r) && OutcomeOk(s.store.log, who, who.corr, caller, r)
    ensures InstanceOk(Said(s, who.inst, who, from, after, r), who.inst)
  {
    var t := Said(s, who.inst, who, from, after, r);
    forall j: nat | Live(t, who.inst, j) ensures SlotOk(t, who.inst, j) {
      if j == i {
        SaidOwn(s, who, i, from, after, r, caller);
      } else {
        SaidOther(s, who, i, from, after, r, j);
      }
    }
    assert forall j: nat :: j < |after.ops| && after.ops[j].Some? && j != i ==> Live(s, who.inst, j);
  }

  lemma SaidKeeps(s: System, who: Who, i: nat, after: Svc, r: Outcome, caller: nat)
    requires Inv(s) && Concerned(s, who, i, after, r) && OutcomeOk(s.store.log, who, who.corr, caller, r)
    ensures Inv(Said(s, who.inst, who, Some(who), after, r))
  {
    var t := Said(s, who.inst, who, Some(who), after, r);
    assert InstanceOk(s, who.inst);
    SaidNet(s, who, i, Some(who), after, r, caller);
    Posted(s, who, r);
    forall inst | inst in t.svcs ensures InstanceOk(t, inst) {
      if inst == who.inst {
        SaidInstance(s, who, i, Some(who), after, r, caller);
      } else {
        InstanceApart(s, t, inst);
      }
    }
    SaidOutputs(s, who, Some(who), after, r);
  }

  lemma SaidOutputs(s: System, who: Who, from: Option<Who>, after: Svc, r: Outcome)
    requires OutputsOk(s)
    requires forall o :: o in r.orders ==> OrderOk(s.store.log, who, o)
    requires forall i :: 0 <= i < |r.replies| ==> ReplyOk(s.store.log, from, r.replies[i])
    ensures OutputsOk(Said(s, who.inst, who, from, after, r))
  {
    var t := Said(s, who.inst, who, from, after, r);
    forall i: nat | i < |t.answers| ensures ReplyOk(t.store.log, t.answers[i].from, t.answers[i].reply) {
      if i >= |s.answers| { assert t.answers[i] == Answer(who.inst, from, r.replies[i - |s.answers|]); }
    }
  }

  /** A call that reached no operation. */
  lemma QuietKeeps(s: System, who: Who, from: Option<Who>, after: Svc, r: Outcome)
    requires Inv(s) && who.inst in s.svcs
    requires after.ops == s.svcs[who.inst].ops && after.nextCorr == s.svcs[who.inst].nextCorr
    requires r.op.None? && r.sends == [] && r.orders == []
    requires forall i :: 0 <= i < |r.replies| ==> ReplyOk(s.store.log, from, r.replies[i])
    ensures Inv(Said(s, who.inst, who, from, after, r))
  {
    var t := Said(s, who.inst, who, from, after, r);
    SaidOutputs(s, who, from, after, r);
    forall u | u in t.net ensures PacketOk(t, u) { assert PacketOk(s, u); }
    forall inst | inst in t.svcs ensures InstanceOk(t, inst) {
      QuietInstance(s, t, inst);
    }
  }

  lemma QuietInstance(s: System, t: System, inst: nat)
    requires inst in s.svcs && InstanceOk(s, inst) && inst in t.svcs
    requires t.store.log == s.store.log && t.net == s.net && t.nextInst == s.nextInst
    requires t.svcs[inst].ops == s.svcs[inst].ops && t.svcs[inst].nextCorr == s.svcs[inst].nextCorr
    ensures InstanceOk(t, inst)
  {
    forall i: nat | Live(t, inst, i) ensures SlotOk(t, inst, i) {
      assert Live(s, inst, i) && SlotOk(s, inst, i);
      SlotApart(s, t, inst, i);
    }
  }
}
