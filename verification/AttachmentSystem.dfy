/** Any number of attachment services, one ledger and a lossy network: a
    service's revocation generation only rises, and what it revoked stays so. */
module AttachmentSystem {
  import opened Basics
  import opened AttachmentGrant
  import opened AttachmentService

  datatype Who = Who(inst: nat, corr: nat)
  datatype Write = Write(key: Key, g: U64)
  datatype Entry = Entry(g: U64, etag: nat)

  datatype Packet =
    | Asked(who: Who, ask: Ask)
    | Acked(who: Who, ask: Ask, status: Status, etag: nat, value: Stored)

  /** A write's etag is its place in the log. */
  datatype System = System(
    entries: map<Key, Entry>, log: seq<Write>, net: map<nat, Packet>, nextUid: nat,
    svcs: map<nat, Svc>, nextInst: nat)

  const INITIAL := System(map[], [], map[], 0, map[], 0)

  datatype Action =
    | Spawn
    | Crash(inst: nat)
    | Present(inst: nat, host: Host, caller: nat, code: Code, body: Body)
    | Serve(uid: nat, told: bool)
    | Lose(uid: nat)
    | Decline(uid: nat, status: Status)
    | Deliver(uid: nat, host: Host)
    | ClockTick(inst: nat, host: Host)

  function KeyOf(ask: Ask): Key {
    match ask
    case Get(k) => k
    case PutIfAbsent(k, _) => k
    case CompareAndSwap(k, _, _) => k
  }

  predicate Takes(s: System, ask: Ask) {
    match ask
    case Get(_) => false
    case PutIfAbsent(k, _) => k !in s.entries
    case CompareAndSwap(k, e, _) => k in s.entries && s.entries[k].etag == e
  }

  function Store(s: System, k: Key, g: U64): System {
    s.(entries := s.entries[k := Entry(g, |s.log|)], log := s.log + [Write(k, g)])
  }

  function Effect(s: System, ask: Ask): System {
    match ask
    case Get(_) => s
    case PutIfAbsent(k, g) => if Takes(s, ask) then Store(s, k, g) else s
    case CompareAndSwap(k, _, g) => if Takes(s, ask) then Store(s, k, g) else s
  }

  function HonestAck(s: System, who: Who, ask: Ask): Packet {
    match ask
    case Get(k) =>
      if k in s.entries then Acked(who, ask, StOk, s.entries[k].etag, Generation(s.entries[k].g))
      else Acked(who, ask, StNotFound, 0, Garbage)
    case _ => Acked(who, ask, if Takes(s, ask) then StOk else StConflict, 0, Garbage)
  }

  function Post(net: map<nat, Packet>, uid: nat, inst: nat, asks: seq<(nat, Ask)>): map<nat, Packet>
    decreases |asks|
  {
    if asks == [] then net
    else Post(net[uid := Asked(Who(inst, asks[0].0), asks[0].1)], uid + 1, inst, asks[1..])
  }

  /** What a call leaves behind. */
  function Said(s: System, inst: nat, call: (Svc, Outcome)): System {
    s.(svcs := s.svcs[inst := call.0], net := Post(s.net, s.nextUid, inst, call.1.asks), nextUid := s.nextUid + |call.1.asks|)
  }

  predicate Enabled(s: System, a: Action) {
    match a
    case Spawn => true
    case Crash(i) => i in s.svcs
    case Present(i, _, _, _, _) => i in s.svcs
    case Serve(u, _) => u in s.net && s.net[u].Asked?
    case Decline(u, status) => u in s.net && s.net[u].Asked? && status != StOk && status != StNotFound
    case Lose(u) => u in s.net
    case Deliver(u, _) => u in s.net && s.net[u].Acked? && s.net[u].who.inst in s.svcs
    case ClockTick(i, _) => i in s.svcs
  }

  function Apply(s: System, a: Action): System
    requires Enabled(s, a)
  {
    match a
    case Spawn => s.(svcs := s.svcs[s.nextInst := NewSvc()], nextInst := s.nextInst + 1)
    case Crash(i) => s.(svcs := s.svcs - {i})
    case Present(i, h, caller, code, body) => Said(s, i, OnRequest(s.svcs[i], h, caller, code, body))
    case Serve(u, told) =>
      var p := s.net[u];
      var ack := if told then HonestAck(s, p.who, p.ask) else Acked(p.who, p.ask, StOther, 0, Garbage);
      Effect(s, p.ask).(net := s.net[u := ack])
    case Decline(u, status) => s.(net := s.net[u := Acked(s.net[u].who, s.net[u].ask, status, 0, Garbage)])
    case Lose(u) => s.(net := s.net - {u})
    case Deliver(u, h) =>
      var p := s.net[u];
      Said(s.(net := s.net - {u}), p.who.inst, OnLedger(s.svcs[p.who.inst], h, p.who.corr, p.status, p.etag, p.value))
    case ClockTick(i, h) => Said(s, i, Tick(s.svcs[i], h))
  }

  predicate IsRun(actions: seq<Action>) {
    actions == [] || (IsRun(actions[..|actions| - 1]) && Enabled(After(actions[..|actions| - 1]), actions[|actions| - 1]))
  }

  function After(actions: seq<Action>): System {
    if actions == [] then INITIAL
    else
      var before := After(actions[..|actions| - 1]);
      if Enabled(before, actions[|actions| - 1]) then Apply(before, actions[|actions| - 1]) else before
  }

  // ── What every run keeps ───────────────────────────────────────────────

  /** Each write to a key is above every earlier one. */
  ghost predicate Rises(log: seq<Write>) {
    forall i: nat, j: nat :: i < j < |log| && log[i].key == log[j].key ==> log[i].g < log[j].g
  }

  /** The ledger holds the last write to each key, and every key written. */
  ghost predicate EntriesOk(s: System) {
    && (forall k :: k in s.entries ==>
          && s.entries[k].etag < |s.log| && s.log[s.entries[k].etag] == Write(k, s.entries[k].g)
          && forall j: nat :: s.entries[k].etag < j < |s.log| ==> s.log[j].key != k)
    && (forall i: nat :: i < |s.log| ==> s.log[i].key in s.entries && s.log[i].g > 0)
  }

  /** Safe to serve whenever it arrives: a swap is from a lower generation. */
  ghost predicate AskOk(log: seq<Write>, ask: Ask) {
    match ask
    case Get(_) => true
    case PutIfAbsent(_, g) => g > 0
    case CompareAndSwap(k, e, g) => e < |log| && log[e].key == k && log[e].g < g
  }

  ghost predicate AckOk(log: seq<Write>, p: Packet)
    requires p.Acked?
  {
    p.status == StOk && p.ask.Get? ==>
      p.etag < |log| && p.value.Generation? && log[p.etag] == Write(p.ask.key, p.value.g)
  }

  ghost predicate PacketOk(s: System, u: nat)
    requires u in s.net
  {
    var p := s.net[u];
    && u < s.nextUid && p.who.inst < s.nextInst
    && (p.who.inst in s.svcs ==> p.who.corr < s.svcs[p.who.inst].nextCorr)
    && AskOk(s.log, p.ask)
    && (p.Acked? ==> AckOk(s.log, p))
  }

  /** An operation that waits for its generation asked for its own key's. */
  ghost predicate OwnKey(net: map<nat, Packet>, inst: nat, op: Op) {
    op.stage == GetGeneration ==>
      forall u :: u in net && net[u].who == Who(inst, op.corr) ==> net[u].ask == Get(op.OnKey())
  }

  ghost predicate SvcOk(s: System, inst: nat)
    requires inst in s.svcs
  {
    && inst < s.nextInst && CorrsDiffer(s.svcs[inst].ops)
    && forall i :: 0 <= i < |s.svcs[inst].ops| && s.svcs[inst].ops[i].Some? ==>
         s.svcs[inst].ops[i].value.corr < s.svcs[inst].nextCorr && OwnKey(s.net, inst, s.svcs[inst].ops[i].value)
  }

  /** No two slots carry one correlation id. */
  ghost predicate CorrsDiffer(ops: seq<Option<Op>>) {
    forall i, j :: 0 <= i < j < |ops| && ops[i].Some? && ops[j].Some? ==> ops[i].value.corr != ops[j].value.corr
  }

  ghost predicate Inv(s: System) {
    && Rises(s.log) && EntriesOk(s)
    && (forall u :: u in s.net ==> PacketOk(s, u))
    && (forall inst :: inst in s.svcs ==> SvcOk(s, inst))
  }

  // ── Each action ────────────────────────────────────────────────────────

  ghost predicate Grows(a: seq<Write>, b: seq<Write>) {
    |a| <= |b| && forall i :: 0 <= i < |a| ==> a[i] == b[i]
  }

  lemma EffectKeeps(s: System, ask: Ask)
    requires Rises(s.log) && EntriesOk(s) && AskOk(s.log, ask)
    ensures var t := Effect(s, ask); Rises(t.log) && EntriesOk(t) && Grows(s.log, t.log)
  {
    if Takes(s, ask) {
      match ask {
        case PutIfAbsent(k, g) => StoreKeeps(s, k, g);
        case CompareAndSwap(k, e, g) => StoreKeeps(s, k, g);
        case Get(_) => assert false;
      }
    }
  }

  /** A write above what stands under its key. */
  lemma StoreKeeps(s: System, k: Key, g: U64)
    requires Rises(s.log) && EntriesOk(s) && g > 0 && (k in s.entries ==> s.entries[k].g < g)
    ensures var t := Store(s, k, g); Rises(t.log) && EntriesOk(t)
  {
    var t := Store(s, k, g);
    forall i: nat | i < |s.log| && s.log[i].key == k ensures s.log[i].g < g {
      assert k in s.entries;
      if i < s.entries[k].etag { assert s.log[i].g < s.log[s.entries[k].etag].g; }
    }
    forall i: nat, j: nat | i < j < |t.log| && t.log[i].key == t.log[j].key ensures t.log[i].g < t.log[j].g {
      if j < |s.log| { assert t.log[i] == s.log[i] && t.log[j] == s.log[j]; }
    }
  }

  lemma StaysOk(a: seq<Write>, b: seq<Write>)
    requires Grows(a, b)
    ensures forall ask :: AskOk(a, ask) ==> AskOk(b, ask)
    ensures forall p: Packet :: p.Acked? && AckOk(a, p) ==> AckOk(b, p)
  {
  }

  /** The ledger moves on and messages shrink or become true replies. */
  lemma NetKeeps(s: System, t: System)
    requires Inv(s) && Rises(t.log) && EntriesOk(t) && Grows(s.log, t.log)
    requires t.svcs == s.svcs && t.nextInst == s.nextInst && t.nextUid == s.nextUid
    requires forall u :: u in t.net ==> u in s.net && t.net[u].who == s.net[u].who && t.net[u].ask == s.net[u].ask
    requires forall u :: u in t.net && t.net[u].Acked? ==> t.net[u] == s.net[u] || AckOk(t.log, t.net[u])
    ensures Inv(t)
  {
    StaysOk(s.log, t.log);
    forall u | u in t.net ensures PacketOk(t, u) { assert PacketOk(s, u); }
    forall inst | inst in t.svcs ensures SvcOk(t, inst) { assert SvcOk(s, inst); }
  }

  lemma EffectIsKept(s: System, ask: Ask)
    requires Inv(s) && AskOk(s.log, ask)
    ensures Inv(Effect(s, ask))
  {
    EffectKeeps(s, ask);
    NetKeeps(s, Effect(s, ask));
  }

  /** A reply takes its request's place. */
  lemma ReplyKeeps(s: System, u: nat, ack: Packet)
    requires Inv(s) && u in s.net && ack.Acked? && ack.who == s.net[u].who && ack.ask == s.net[u].ask && AckOk(s.log, ack)
    ensures Inv(s.(net := s.net[u := ack]))
  {
    NetKeeps(s, s.(net := s.net[u := ack]));
  }

  lemma ServeKeeps(s: System, u: nat, told: bool)
    requires Inv(s) && Enabled(s, Serve(u, told))
    ensures Inv(Apply(s, Serve(u, told)))
  {
    assert PacketOk(s, u);
    var p := s.net[u];
    EffectIsKept(s, p.ask);
    AckIsTrue(s, p.who, p.ask);
    ReplyKeeps(Effect(s, p.ask), u, if told then HonestAck(s, p.who, p.ask) else Acked(p.who, p.ask, StOther, 0, Garbage));
  }

  lemma AckIsTrue(s: System, who: Who, ask: Ask)
    requires EntriesOk(s)
    ensures AckOk(Effect(s, ask).log, HonestAck(s, who, ask))
  {
  }

  /** A call of one instance: its slots keep their correlation ids or take a
      new one, and it asks one thing at most, about an operation of its own. */
  ghost predicate CallOk(s: System, inst: nat, call: (Svc, Outcome)) {
    && inst in s.svcs && s.svcs[inst].nextCorr <= call.0.nextCorr
    && |call.1.asks| <= 1 && CorrsDiffer(call.0.ops)
    && (call.1.asks != [] ==> call.1.asks[0].0 < call.0.nextCorr && AskOk(s.log, call.1.asks[0].1))
    && (forall i :: 0 <= i < |call.0.ops| && call.0.ops[i].Some? ==>
          call.0.ops[i].value.corr < call.0.nextCorr && OwnKeyAfter(s, inst, call.0.ops[i].value, call.1.asks))
  }

  ghost predicate OwnKeyAfter(s: System, inst: nat, op: Op, asks: seq<(nat, Ask)>) {
    && OwnKey(s.net, inst, op)
    && (op.stage == GetGeneration && asks != [] && asks[0].0 == op.corr ==> asks[0].1 == Get(op.OnKey()))
  }

  lemma Posted(net: map<nat, Packet>, uid: nat, inst: nat, asks: seq<(nat, Ask)>)
    requires |asks| <= 1
    ensures Post(net, uid, inst, asks) == if asks == [] then net else net[uid := Asked(Who(inst, asks[0].0), asks[0].1)]
  {
  }

  lemma CallKeeps(s: System, inst: nat, call: (Svc, Outcome))
    requires Inv(s) && CallOk(s, inst, call)
    ensures Inv(Said(s, inst, call))
  {
    var t := Said(s, inst, call);
    Posted(s.net, s.nextUid, inst, call.1.asks);
    assert SvcOk(s, inst);
    forall u | u in t.net ensures PacketOk(t, u) {
      if u in s.net { assert PacketOk(s, u); }
    }
    forall x | x in t.svcs ensures SvcOk(t, x) {
      if x != inst { assert SvcOk(s, x); }
    }
  }

  lemma PresentOk(s: System, inst: nat, h: Host, caller: nat, code: Code, body: Body)
    requires Inv(s) && inst in s.svcs
    ensures CallOk(s, inst, OnRequest(s.svcs[inst], h, caller, code, body))
  {
    assert SvcOk(s, inst);
    forall u | u in s.net ensures s.net[u].who != Who(inst, s.svcs[inst].nextCorr) { assert PacketOk(s, u); }
  }

  lemma DeliverOk(s: System, u: nat, h: Host)
    requires Inv(s) && Enabled(s, Deliver(u, h))
    ensures var p := s.net[u];
            CallOk(s.(net := s.net - {u}), p.who.inst, OnLedger(s.svcs[p.who.inst], h, p.who.corr, p.status, p.etag, p.value))
  {
    var p := s.net[u];
    assert PacketOk(s, u) && SvcOk(s, p.who.inst);
    var svc := s.svcs[p.who.inst];
    var i := SlotOf(svc.ops, p.who.corr);
    if i < |svc.ops| { AdvanceOk(s.log, h, svc.ops[i].value, p); }
  }

  /** A swap asked for is from what was read, to a higher generation. */
  lemma AdvanceOk(log: seq<Write>, h: Host, op: Op, p: Packet)
    requires p.Acked? && AckOk(log, p) && (op.stage == GetGeneration ==> p.ask == Get(op.OnKey()))
    ensures var step := Advance(h, op, p.status, p.etag, p.value);
            step.Waiting? ==>
              && step.op == op.(stage := SetGeneration, generation := step.op.generation)
              && AskOk(log, step.ask) && op.stage == GetGeneration
  {
  }

  lemma TickOk(s: System, inst: nat, h: Host)
    requires Inv(s) && inst in s.svcs
    ensures CallOk(s, inst, Tick(s.svcs[inst], h))
  {
    assert SvcOk(s, inst);
  }

  lemma SpawnKeeps(s: System)
    requires Inv(s)
    ensures Inv(s.(svcs := s.svcs[s.nextInst := NewSvc()], nextInst := s.nextInst + 1))
  {
    var t := s.(svcs := s.svcs[s.nextInst := NewSvc()], nextInst := s.nextInst + 1);
    forall u | u in t.net ensures PacketOk(t, u) { assert PacketOk(s, u); }
    forall x | x in t.svcs ensures SvcOk(t, x) {
      if x != s.nextInst { assert SvcOk(s, x); }
    }
  }

  lemma CrashKeeps(s: System, inst: nat)
    requires Inv(s)
    ensures Inv(s.(svcs := s.svcs - {inst}))
  {
    var t := s.(svcs := s.svcs - {inst});
    forall u | u in t.net ensures PacketOk(t, u) { assert PacketOk(s, u); }
    forall x | x in t.svcs ensures SvcOk(t, x) { assert SvcOk(s, x); }
  }

  lemma StepKeeps(s: System, a: Action)
    requires Inv(s) && Enabled(s, a)
    ensures Inv(Apply(s, a))
  {
    match a {
      case Spawn => SpawnKeeps(s);
      case Crash(i) => CrashKeeps(s, i);
      case Present(i, h, caller, code, body) =>
        PresentOk(s, i, h, caller, code, body);
        CallKeeps(s, i, OnRequest(s.svcs[i], h, caller, code, body));
      case Serve(u, told) => ServeKeeps(s, u, told);
      case Decline(u, status) => NetKeeps(s, Apply(s, a));
      case Lose(u) => NetKeeps(s, Apply(s, a));
      case Deliver(u, h) =>
        var p := s.net[u];
        NetKeeps(s, s.(net := s.net - {u}));
        DeliverOk(s, u, h);
        CallKeeps(s.(net := s.net - {u}), p.who.inst, OnLedger(s.svcs[p.who.inst], h, p.who.corr, p.status, p.etag, p.value));
      case ClockTick(i, h) =>
        TickOk(s, i, h);
        CallKeeps(s, i, Tick(s.svcs[i], h));
    }
  }

  lemma {:induction false} RunKeeps(actions: seq<Action>)
    requires IsRun(actions)
    ensures Inv(After(actions))
  {
    if actions != [] {
      RunKeeps(actions[..|actions| - 1]);
      StepKeeps(After(actions[..|actions| - 1]), actions[|actions| - 1]);
    }
  }

  // ── What it comes to ───────────────────────────────────────────────────

  ghost predicate Reached(s: System) { exists actions :: IsRun(actions) && After(actions) == s }

  ghost predicate Later(s: System, t: System) {
    exists actions, more :: IsRun(actions) && IsRun(actions + more) && After(actions) == s && After(actions + more) == t
  }

  function GenerationOf(s: System, k: Key): U64 { if k in s.entries then s.entries[k].g else 0 }

  lemma LogGrows(s: System, a: Action)
    requires Enabled(s, a)
    ensures Grows(s.log, Apply(s, a).log)
  {
  }

  lemma {:induction false} RunGrows(actions: seq<Action>, more: seq<Action>)
    requires IsRun(actions) && IsRun(actions + more)
    ensures Grows(After(actions).log, After(actions + more).log)
    decreases |more|
  {
    if more == [] {
      assert actions + more == actions;
    } else {
      var less := more[..|more| - 1];
      assert (actions + more)[..|actions + more| - 1] == actions + less;
      RunGrows(actions, less);
      LogGrows(After(actions + less), (actions + more)[|actions + more| - 1]);
    }
  }

  lemma GenerationGrows(s: System, t: System, k: Key)
    requires Inv(s) && Inv(t) && Grows(s.log, t.log)
    ensures GenerationOf(s, k) <= GenerationOf(t, k)
  {
    hide PacketOk, SvcOk, OwnKey, CorrsDiffer;
    if k in s.entries {
      assert t.log[s.entries[k].etag] == s.log[s.entries[k].etag];
    }
  }

  /** A service's stored generation never falls, however revocations race. */
  lemma GenerationOnlyRises(s: System, t: System, k: Key)
    requires Later(s, t)
    ensures GenerationOf(s, k) <= GenerationOf(t, k)
  {
    var actions, more :| IsRun(actions) && IsRun(actions + more) && After(actions) == s && After(actions + more) == t;
    RunKeeps(actions);
    RunKeeps(actions + more);
    RunGrows(actions, more);
    GenerationGrows(s, t, k);
  }

  /** What a read served from then on says, told truly. */
  lemma LaterReadsSeeIt(s: System, t: System, k: Key, u: nat)
    requires Later(s, t) && Enabled(t, Serve(u, true)) && t.net[u].ask == Get(k)
    ensures var p := Apply(t, Serve(u, true)).net[u];
            && p.Acked? && (p.status == StOk || p.status == StNotFound)
            && (p.status == StOk ==> p.value.Generation?)
            && GenerationOf(s, k) <= (if p.status == StOk then p.value.g else 0)
  {
    GenerationOnlyRises(s, t, k);
  }

  /** Once the stored generation is above a publication's, an operation that
      reads the ledger from then on grants nothing under it, ever. */
  lemma RevokedForGood(s: System, t: System, u: nat, h: Host, op: Op)
    requires Later(s, t) && Enabled(t, Serve(u, true)) && t.net[u].ask == Get(op.OnKey())
    requires op.stage == GetGeneration && op.pending.PendingGrant?
    requires op.pending.publication.revocationGeneration < GenerationOf(s, op.OnKey())
    ensures var p := Apply(t, Serve(u, true)).net[u];
            p.Acked? && var step := Advance(h, op, p.status, p.etag, p.value); step.Ended? && step.result.Err?
  {
    LaterReadsSeeIt(s, t, op.OnKey(), u);
    var p := Apply(t, Serve(u, true)).net[u];
    OtherGenerationIsRevoked(h, op, p.status, p.etag, p.value);
  }

  // ── A reply until it is delivered ──────────────────────────────────────

  lemma {:induction false} PostLeaves(net: map<nat, Packet>, uid: nat, inst: nat, asks: seq<(nat, Ask)>, u: nat)
    requires u < uid
    ensures u in Post(net, uid, inst, asks) <==> u in net
    ensures u in net ==> Post(net, uid, inst, asks)[u] == net[u]
    decreases |asks|
  {
    if asks != [] {
      PostLeaves(net[uid := Asked(Who(inst, asks[0].0), asks[0].1)], uid + 1, inst, asks[1..], u);
    }
  }

  /** A message whose id was given out is the same afterwards, or gone; unless
      it was a request, and is answered. */
  ghost predicate Carried(s: System, t: System, u: nat) {
    && s.nextUid <= t.nextUid && (u in t.net ==> u in s.net)
    && (u in t.net && s.net[u].Acked? ==> t.net[u] == s.net[u])
  }

  lemma StepCarries(s: System, a: Action, u: nat)
    requires Enabled(s, a) && u < s.nextUid
    ensures Carried(s, Apply(s, a), u)
  {
    hide OnRequest, OnLedger, Tick, Post;
    match a
    case Present(i, h, caller, code, body) =>
      PostLeaves(s.net, s.nextUid, i, OnRequest(s.svcs[i], h, caller, code, body).1.asks, u);
    case Deliver(w, h) =>
      var p := s.net[w];
      PostLeaves(s.net - {w}, s.nextUid, p.who.inst,
                 OnLedger(s.svcs[p.who.inst], h, p.who.corr, p.status, p.etag, p.value).1.asks, u);
    case ClockTick(i, h) => PostLeaves(s.net, s.nextUid, i, Tick(s.svcs[i], h).1.asks, u);
    case _ =>
  }

  lemma {:induction false} RunCarries(actions: seq<Action>, more: seq<Action>, u: nat)
    requires IsRun(actions) && IsRun(actions + more) && u < After(actions).nextUid
    ensures Carried(After(actions), After(actions + more), u)
    decreases |more|
  {
    hide Apply, Enabled;
    if more == [] {
      assert actions + more == actions;
    } else {
      var less := more[..|more| - 1];
      assert (actions + more)[..|actions + more| - 1] == actions + less;
      RunCarries(actions, less, u);
      StepCarries(After(actions + less), (actions + more)[|actions + more| - 1], u);
    }
  }

  lemma LaterCarries(s: System, t: System, u: nat)
    requires Later(s, t) && u in s.net && s.net[u].Acked? && u in t.net
    ensures Inv(t) && t.net[u] == s.net[u]
  {
    hide Inv, PacketOk;
    var actions, more :| IsRun(actions) && IsRun(actions + more) && After(actions) == s && After(actions + more) == t;
    RunKeeps(actions);
    RunKeeps(actions + more);
    UidIsOut(s, u);
    RunCarries(actions, more, u);
  }

  lemma UidIsOut(s: System, u: nat)
    requires Inv(s) && u in s.net
    ensures u < s.nextUid
  {
    assert PacketOk(s, u);
  }

  /** The operation a reply reaches asked for its own service's generation. */
  lemma ReplyIsForKey(s: System, u: nat, i: nat)
    requires Inv(s) && u in s.net && s.net[u].who.inst in s.svcs
    requires i < |s.svcs[s.net[u].who.inst].ops| && Carries(s.svcs[s.net[u].who.inst].ops[i], s.net[u].who.corr)
    requires s.svcs[s.net[u].who.inst].ops[i].value.stage == GetGeneration
    ensures s.net[u].ask == Get(s.svcs[s.net[u].who.inst].ops[i].value.OnKey())
  {
    assert SvcOk(s, s.net[u].who.inst);
  }

  /** In any run: after a service's generation has passed a publication's, a
      grant under it whose read the ledger serves from then on is refused,
      whenever the reply is delivered and whatever happens in between. */
  lemma RevokedInEveryRun(s: System, t: System, u: nat, v: System, h: Host, i: nat)
    requires Later(s, t) && Enabled(t, Serve(u, true)) && t.net[u].ask.Get?
    requires Later(Apply(t, Serve(u, true)), v) && Enabled(v, Deliver(u, h))
    requires i == SlotOf(v.svcs[v.net[u].who.inst].ops, v.net[u].who.corr) < |v.svcs[v.net[u].who.inst].ops|
    requires var op := v.svcs[v.net[u].who.inst].ops[i].value;
             op.stage == GetGeneration && op.pending.PendingGrant?
             && op.pending.publication.revocationGeneration < GenerationOf(s, t.net[u].ask.key)
    ensures var op := v.svcs[v.net[u].who.inst].ops[i].value;
            var call := OnLedger(v.svcs[v.net[u].who.inst], h, v.net[u].who.corr, v.net[u].status, v.net[u].etag, v.net[u].value);
            && call.1.asks == [] && call.0.ops[i].None?
            && |call.1.replies| == 1 && call.1.replies[0].caller == op.caller
            && call.1.replies[0].refusal.Some? && call.1.replies[0].record.None?
  {
    var r := Apply(t, Serve(u, true));
    LaterCarries(r, v, u);
    ReplyIsForKey(v, u, i);
    hide Inv, Later;
    RevokedForGood(s, t, u, h, v.svcs[v.net[u].who.inst].ops[i].value);
  }
}
