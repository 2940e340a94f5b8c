/** The whole system as a step relation: any number of service instances that
    start and crash, one ledger, an unordered lossy network between them,
    custodians that may say anything, and other clients of the ledger. */
module StorageKeySystem {
  import opened Basics
  import opened StorageKey
  import opened Ledger
  import opened StorageKeyService

  /** An operation, for ever: its instance and its correlation id there. */
  datatype Who = Who(inst: nat, corr: nat)

  datatype Writer = ByOp(who: Who) | ByOther

  /** One write the ledger applied. A write's etag is its place in the log. */
  datatype Write = Write(key: Key, value: Value, writer: Writer)

  datatype Entry = Entry(value: Value, etag: Etag)

  /** A request on its way, or its reply on the way back. */
  datatype Packet =
    | Ask(who: Who, req: Request)
    | Ack(who: Who, req: Request, status: Status, etag: Etag, value: Value)

  datatype SentOrder = SentOrder(who: Who, order: Order)

  /** A reply as it left, with the operation it answers (none when the request
      never took a slot). */
  datatype Answer = Answer(inst: nat, from: Option<Who>, reply: Reply)

  /** The ledger, and every write it ever applied. */
  datatype Storage = Storage(ledger: map<Key, Entry>, log: seq<Write>)

  datatype System = System(
    store: Storage,
    net: map<nat, Packet>, nextUid: nat,
    svcs: map<nat, Svc>, nextInst: nat,
    nextCaller: nat, presentedTo: map<nat, nat>,
    signed: set<Record>,
    orders: set<SentOrder>,
    answers: seq<Answer>)

  const INITIAL := System(Storage(map[], []), map[], 0, map[], 0, 0, map[], {}, {}, [])

  /** How the ledger treats a request it serves. A refusal has no effect; an
      effect may still be reported as unavailable. */
  datatype Serving = Honest | HonestButUnsure | Declined(status: Status)

  datatype Action =
    | Spawn
    | Crash(inst: nat)
    | Present(inst: nat, host: Host, payload: Payload)
    | Serve(uid: nat, how: Serving)
    | Lose(uid: nat)
    | Deliver(uid: nat, host: Host)
    | CustodianSays(inst: nat, host: Host, corr: nat, custodian: nat, ok: bool, env: Envelope)
    | ClockTick(inst: nat, host: Host)
    | OtherClaims(antiReplay: Id)
    | DirectoryChanges(device: Id, value: Value)

  // ── The ledger ─────────────────────────────────────────────────────────

  /** Whether a request changes the ledger when it is served. */
  predicate Takes(s: Storage, req: Request) {
    match req
    case Get(_) => false
    case PutIfAbsent(k, _) => k !in s.ledger
    case CompareAndSwap(k, e, _) => k in s.ledger && s.ledger[k].etag == e
    case Delete(k, e) => k in s.ledger && s.ledger[k].etag == e
  }

  function Store(s: Storage, key: Key, value: Value, writer: Writer): Storage {
    s.(ledger := s.ledger[key := Entry(value, |s.log|)], log := s.log + [Write(key, value, writer)])
  }

  /** The ledger after a request took effect. */
  function Effect(s: Storage, who: Who, req: Request): Storage {
    match req
    case Get(_) => s
    case PutIfAbsent(k, v) => Store(s, k, v, ByOp(who))
    case CompareAndSwap(k, _, v) => Store(s, k, v, ByOp(who))
    case Delete(k, _) => s.(ledger := s.ledger - {k})
  }

  /** The answer to a request the ledger served as asked. */
  function HonestAck(s: Storage, who: Who, req: Request): Packet {
    match req
    case Get(k) =>
      if k in s.ledger then Ack(who, req, StOk, s.ledger[k].etag, s.ledger[k].value)
      else Ack(who, req, StNotFound, 0, Blank)
    case PutIfAbsent(k, _) => Ack(who, req, if Takes(s, req) then StOk else StConflict, |s.log|, Blank)
    case CompareAndSwap(k, _, _) => Ack(who, req, if Takes(s, req) then StOk else StConflict, |s.log|, Blank)
    case Delete(k, _) =>
      Ack(who, req, if Takes(s, req) then StOk else if k in s.ledger then StConflict else StNotFound, 0, Blank)
  }

  /** The ledger after serving a request, whether or not it took effect. */
  function Taken(s: Storage, who: Who, req: Request): Storage {
    if Takes(s, req) then Effect(s, who, req) else s
  }

  /** A request served: its effect, and the reply that takes its place. */
  function Served(s: System, uid: nat, how: Serving): System
    requires uid in s.net && s.net[uid].Ask?
  {
    var p := s.net[uid];
    match how
    case Honest => s.(store := Taken(s.store, p.who, p.req), net := s.net[uid := HonestAck(s.store, p.who, p.req)])
    case HonestButUnsure => s.(store := Taken(s.store, p.who, p.req), net := s.net[uid := Ack(p.who, p.req, StUnavailable, 0, Blank)])
    case Declined(status) => s.(net := s.net[uid := Ack(p.who, p.req, status, 0, Blank)])
  }

  // ── A call of one instance ─────────────────────────────────────────────

  /** Requests put on the network under fresh ids. */
  function Post(net: map<nat, Packet>, uid: nat, who: Who, reqs: seq<Request>): map<nat, Packet>
    decreases |reqs|
  {
    if reqs == [] then net else Post(net[uid := Ask(who, reqs[0])], uid + 1, who, reqs[1..])
  }

  function Answers(inst: nat, from: Option<Who>, replies: seq<Reply>): seq<Answer> {
    seq(|replies|, i requires 0 <= i < |replies| => Answer(inst, from, replies[i]))
  }

  function SentOrders(who: Who, orders: seq<Order>): set<SentOrder> {
    set o | o in orders :: SentOrder(who, o)
  }

  /** What a call that concerned the operation `who` leaves behind. */
  function Said(s: System, inst: nat, who: Who, from: Option<Who>, after: Svc, r: Outcome): System {
    s.(svcs := s.svcs[inst := after],
       net := Post(s.net, s.nextUid, who, r.sends),
       nextUid := s.nextUid + |r.sends|,
       signed := s.signed + r.signs,
       orders := s.orders + SentOrders(who, r.orders),
       answers := s.answers + Answers(inst, from, r.replies))
  }

  /** A request arrived: it takes a slot when the correlation counter moves. */
  function Presented(s: System, inst: nat, call: (Svc, Outcome)): System
    requires inst in s.svcs
  {
    var who := Who(inst, s.svcs[inst].nextCorr);
    var from := if call.0.nextCorr == s.svcs[inst].nextCorr then None else Some(who);
    Said(s.(nextCaller := s.nextCaller + 1, presentedTo := s.presentedTo[s.nextCaller := inst]),
         inst, who, from, call.0, call.1)
  }

  /** A message or the clock reached an operation. */
  function Heard(s: System, who: Who, call: (Svc, Outcome)): System {
    Said(s, who.inst, who, Some(who), call.0, call.1)
  }

  /** The correlation id of the operation a tick expires. */
  function ExpiredCorr(s: Svc, nowMs: U64): nat {
    var i := ExpiredSlot(s.ops, nowMs);
    if i < |s.ops| then s.ops[i].value.corr else 0
  }

  predicate Enabled(s: System, a: Action) {
    match a
    case Spawn => true
    case Crash(i) => i in s.svcs
    case Present(i, h, _) => i in s.svcs && h.signed == s.signed
    case Serve(u, how) => u in s.net && s.net[u].Ask? && (how.Declined? ==> how.status != StOk && how.status != StNotFound)
    case Lose(u) => u in s.net
    case Deliver(u, h) => u in s.net && s.net[u].Ack? && s.net[u].who.inst in s.svcs && h.signed == s.signed
    case CustodianSays(i, h, _, _, _, _) => i in s.svcs && h.signed == s.signed
    case ClockTick(i, h) => i in s.svcs && h.signed == s.signed
    case OtherClaims(id) => ReplayKey(id) !in s.store.ledger
    case DirectoryChanges(_, _) => true
  }

  function Apply(s: System, a: Action): System
    requires Enabled(s, a)
  {
    match a
    case Spawn => s.(svcs := s.svcs[s.nextInst := NewSvc()], nextInst := s.nextInst + 1)
    case Crash(i) => s.(svcs := s.svcs - {i})
    case Present(i, h, p) => Presented(s, i, OnRequest(s.svcs[i], h, s.nextCaller, p))
    case Serve(u, how) => Served(s, u, how)
    case Lose(u) => s.(net := s.net - {u})
    case Deliver(u, h) =>
      Heard(s.(net := s.net - {u}), s.net[u].who,
            OnLedger(s.svcs[s.net[u].who.inst], h, s.net[u].who.corr, s.net[u].status, s.net[u].etag, s.net[u].value))
    case CustodianSays(i, h, corr, c, ok, env) =>
      Heard(s, Who(i, corr), OnCustodian(s.svcs[i], h, corr, c, ok, env))
    case ClockTick(i, h) => Heard(s, Who(i, ExpiredCorr(s.svcs[i], h.nowMs)), Tick(s.svcs[i], h))
    case OtherClaims(id) => s.(store := Store(s.store, ReplayKey(id), Claim, ByOther))
    case DirectoryChanges(d, v) => s.(store := Store(s.store, DeviceKey(d), v, ByOther))
  }

  // ── Runs ───────────────────────────────────────────────────────────────

  /** A sequence of actions each enabled where it happens. */
  predicate IsRun(actions: seq<Action>) {
    if actions == [] then true
    else IsRun(actions[..|actions| - 1]) && Enabled(After(actions[..|actions| - 1]), actions[|actions| - 1])
  }

  /** The state a run ends in. */
  function After(actions: seq<Action>): System {
    if actions == [] then INITIAL
    else
      var before := After(actions[..|actions| - 1]);
      var a := actions[|actions| - 1];
      if Enabled(before, a) then Apply(before, a) else before
  }
}
