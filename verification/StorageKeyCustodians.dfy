/** Two of three: a release completes exactly when two of its custodians
    answered validly, whatever else they and anyone else say, in any order. */
module StorageKeyCustodians {
  import opened Basics
  import opened StorageKey
  import opened Ledger
  import opened StorageKeyService

  /** One custodian message as it reaches the operation. */
  datatype Message = Message(host: Host, custodian: nat, ok: bool, env: Envelope)

  /** Which custodians' answers were counted, and how. */
  datatype Poll = Poll(good: set<nat>, bad: set<nat>) {
    predicate Open() { |good| < 2 && |bad| < 2 }
    /** The third custodian is asked only after one of the others failed. */
    predicate Asked(c: nat) { c <= 1 || (c == 2 && bad != {}) }
    function Hear(c: nat, valid: bool): Poll {
      if !Open() || !Asked(c) || c in good || c in bad then this
      else if valid then Poll(good + {c}, bad) else Poll(good, bad + {c})
    }
  }

  /** Whether an answer is the envelope its custodian was asked for. */
  predicate Valid(auth: Binding, m: Message) {
    && m.ok
    && CheckReleased(m.env, auth) == Ok(m.custodian + 1)
  }

  function Polled(auth: Binding, msgs: seq<Message>): Poll {
    if msgs == [] then Poll({}, {})
    else Polled(auth, msgs[..|msgs| - 1]).Hear(msgs[|msgs| - 1].custodian, Valid(auth, msgs[|msgs| - 1]))
  }

  /** The turn so far, with one more message heard. */
  function Then(t: Turn, m: Message): Turn
    requires t.verdict.Next?
  {
    var next := CustodianResult(m.host, t.verdict.op, m.custodian, m.ok, m.env);
    next.(orders := t.orders + next.orders)
  }

  /** The operation after a sequence of custodian messages. Once it is decided
      nothing more reaches it. */
  function Collected(t: Turn, msgs: seq<Message>): Turn {
    if msgs == [] then t
    else
      var before := Collected(t, msgs[..|msgs| - 1]);
      var m := msgs[|msgs| - 1];
      if before.verdict.Next? then Then(before, m) else before
  }

  /** An authorisation about to be ordered: the set's three envelopes and the
      device's key are at hand, and nobody was asked. */
  ghost predicate Orderable(op: Op) {
    && op.set_.Held? && |op.set_.rec.items| == 3
    && (forall i :: 0 <= i < 3 ==> op.set_.rec.items[i].EnvelopeItem?)
    && op.fields.Proven? && op.fields.req.recipient.Some?
    && op.envs == [] && op.asked == {} && op.answered == {}
  }

  /** The service can sign and reach every custodian. */
  predicate Working(h: Host) { h.signOk && {0, 1, 2} <= h.custodianUp }

  predicate AllWorking(msgs: seq<Message>) { forall i :: 0 <= i < |msgs| ==> Working(msgs[i].host) }

  function OrderedOf(o: Order): nat { o.custodian }

  /** Whom the orders sent so far went to, in order. */
  function AskedBy(orders: seq<Order>): seq<nat> {
    seq(|orders|, i requires 0 <= i < |orders| => OrderedOf(orders[i]))
  }

  /** The share of custodian `c` is among them. */
  ghost predicate HasShare(envs: seq<Envelope>, c: nat) {
    exists i :: 0 <= i < |envs| && envs[i].Envelope? && envs[i].index == c + 1
  }

  /** The share indices of the envelopes gathered. */
  ghost predicate Shares(op: Op, good: set<nat>) {
    && |op.envs| == |good|
    && (forall c :: c in good <==> HasShare(op.envs, c))
    && (forall i :: 0 <= i < |op.envs| ==> CheckReleased(op.envs[i], op.auth).Ok? && op.envs[i].index >= 1)
  }

  /** How the operation mirrors the poll while it is open. */
  ghost predicate Mirrors(op: Op, op0: Op, p: Poll) {
    && op.stage == Custodians && op.auth == op0.auth && op.out.Some?
    && op.set_ == op0.set_ && op.fields == op0.fields && op.grant == op0.grant
    && p.good <= {0, 1, 2} && p.bad <= {0, 1, 2} && p.good !! p.bad
    && op.answered == p.good + p.bad
    && op.asked == (if p.bad == {} then {0, 1} else {0, 1, 2})
    && Shares(op, p.good)
  }

  /** Asked, and not answered yet. */
  predicate Counted(op: Op, c: nat) { c <= 2 && c in op.asked && c !in op.answered }

  lemma CountedWhenAsked(op: Op, op0: Op, p: Poll, c: nat)
    requires Mirrors(op, op0, p)
    ensures Counted(op, c) <==> p.Asked(c) && c !in p.good && c !in p.bad
  {
  }

  /** The outcome the poll calls for. */
  ghost predicate Decides(t: Turn, op0: Op, p: Poll) {
    && AskedBy(t.orders) == (if p.bad == {} then [0, 1] else [0, 1, 2])
    && (p.Open() ==> t.verdict.Next? && Mirrors(t.verdict.op, op0, p))
    && (|p.good| >= 2 ==> t.verdict.Done? && HandsOver(t.verdict.op, op0, p.good))
    && (|p.bad| >= 2 ==> t.verdict.Fail?)
    && (|p.good| < 2 || |p.bad| < 2)
  }

  /** The bundle: two shares of different custodians that answered validly,
      the lower first, both released under the authorisation. */
  ghost predicate HandsOver(op: Op, op0: Op, good: set<nat>) {
    && |op.envs| == 2
    && CheckReleased(op.envs[0], op0.auth).Ok? && CheckReleased(op.envs[1], op0.auth).Ok?
    && op.envs[0].index < op.envs[1].index
    && op.envs[0].index - 1 in good && op.envs[1].index - 1 in good
    && op.out.Some? && op.out.value.b == op0.auth
    && op.out.value.items == [EnvelopeItem(op.envs[0]), EnvelopeItem(op.envs[1])]
  }

  lemma OrderingAsksTwo(h: Host, op: Op)
    requires Orderable(op) && Working(h)
    ensures Decides(OrderShares(h, op), op, Poll({}, {}))
  {
    hide CheckReleased;
  }

  /** An answer that is not counted changes nothing. */
  lemma IgnoredAnswer(op: Op, op0: Op, p: Poll, m: Message)
    requires Mirrors(op, op0, p) && p.Open() && p.Hear(m.custodian, Valid(op0.auth, m)) == p
    ensures CustodianResult(m.host, op, m.custodian, m.ok, m.env) == Turn(Next(op), [], [], {})
  {
    CountedWhenAsked(op, op0, p, m.custodian);
  }

  lemma ReleasedIndex(e: Envelope, auth: Binding)
    requires CheckReleased(e, auth).Ok?
    ensures e.Envelope? && CheckReleased(e, auth) == Ok(e.index) && 1 <= e.index <= 3
  {
  }

  /** Adding the share of a custodian that has none yet. */
  lemma SharesGrow(op: Op, o: Op, good: set<nat>, c: nat, env: Envelope)
    requires Shares(op, good) && c !in good && CheckReleased(env, op.auth) == Ok(c + 1)
    requires o.envs == op.envs + [env] && o.auth == op.auth
    ensures Shares(o, good + {c})
  {
    ReleasedIndex(env, op.auth);
    hide CheckReleased, HasShare;
    forall d: nat ensures d in good + {c} <==> HasShare(o.envs, d) { ShareAppends(op.envs, env, c, d); }
    OneLarger(good, c);
  }

  lemma ShareAppends(envs: seq<Envelope>, env: Envelope, c: nat, d: nat)
    requires env.Envelope? && env.index == c + 1
    ensures HasShare(envs + [env], d) <==> HasShare(envs, d) || d == c
  {
    var more := envs + [env];
    if HasShare(envs, d) {
      var i :| 0 <= i < |envs| && envs[i].Envelope? && envs[i].index == d + 1;
      assert more[i] == envs[i];
    }
    if d == c { assert more[|envs|] == env; }
    if HasShare(more, d) {
      var i :| 0 <= i < |more| && more[i].Envelope? && more[i].index == d + 1;
      if i < |envs| { assert envs[i] == more[i]; }
    }
  }

  /** Two shares of different custodians make a bundle. */
  lemma BundleMade(h: Host, o: Op, op0: Op, good: set<nat>)
    requires Shares(o, good) && |good| == 2 && o.auth == op0.auth && Working(h)
    ensures var t := Release(h, o);
            t.verdict.Done? && t.orders == [] && HandsOver(t.verdict.op, op0, good)
  {
    assert o.envs[0].index - 1 in good && o.envs[1].index - 1 in good;
    if o.envs[0].index == o.envs[1].index {
      var c := o.envs[0].index - 1;
      forall d | d in good ensures d == c {
        var i :| 0 <= i < |o.envs| && o.envs[i].Envelope? && o.envs[i].index == d + 1;
      }
      assert good <= {c};
      SubsetSize(good, {c});
    }
  }

  lemma SubsetSize(a: set<nat>, b: set<nat>)
    requires a <= b
    ensures |a| <= |b|
  {
    if a != {} {
      var x :| x in a;
      SubsetSize(a - {x}, b - {x});
    }
  }

  lemma OneLarger(a: set<nat>, c: nat)
    requires c !in a
    ensures |a + {c}| == |a| + 1
  {
  }

  /** The first valid answer: its share is kept. */
  lemma FirstShare(op: Op, op0: Op, p: Poll, m: Message)
    requires Mirrors(op, op0, p) && |p.good| == 0 && Valid(op0.auth, m)
    requires Counted(op, m.custodian)
    ensures var t := CustodianResult(m.host, op, m.custodian, m.ok, m.env);
            t.orders == [] && t.verdict.Next? && Mirrors(t.verdict.op, op0, Poll(p.good + {m.custodian}, p.bad))
  {
    var c := m.custodian;
    var o := op.(answered := op.answered + {c}, envs := op.envs + [m.env]);
    SharesGrow(op, o, p.good, c, m.env);
    OneLarger(p.good, c);
    assert CustodianResult(m.host, op, c, m.ok, m.env) == Turn(Next(o), [], [], {});
    assert o.answered == (p.good + {c}) + p.bad;
  }

  /** The second: the release is handed over. */
  lemma SecondShare(op: Op, op0: Op, p: Poll, m: Message)
    requires Mirrors(op, op0, p) && |p.good| == 1 && Valid(op0.auth, m) && Working(m.host)
    requires Counted(op, m.custodian)
    ensures var t := CustodianResult(m.host, op, m.custodian, m.ok, m.env);
            t.orders == [] && t.verdict.Done? && HandsOver(t.verdict.op, op0, p.good + {m.custodian})
  {
    var c := m.custodian;
    var o := op.(answered := op.answered + {c}, envs := op.envs + [m.env]);
    SharesGrow(op, o, p.good, c, m.env);
    OneLarger(p.good, c);
    BundleMade(m.host, o, op0, p.good + {c});
    SecondReleases(op, m);
  }

  lemma SecondReleases(op: Op, m: Message)
    requires |op.envs| == 1 && Valid(op.auth, m)
    requires Counted(op, m.custodian)
    ensures CustodianResult(m.host, op, m.custodian, m.ok, m.env)
         == Release(m.host, op.(answered := op.answered + {m.custodian}, envs := op.envs + [m.env]))
  {
  }

  /** The first bad answer brings in the third custodian. */
  lemma FirstFailure(op: Op, op0: Op, p: Poll, m: Message)
    requires Orderable(op0) && Mirrors(op, op0, p) && p.bad == {} && Working(m.host) && !Valid(op0.auth, m)
    requires Counted(op, m.custodian)
    ensures var t := CustodianResult(m.host, op, m.custodian, m.ok, m.env);
            && AskedBy(t.orders) == [2]
            && t.verdict.Next? && Mirrors(t.verdict.op, op0, Poll(p.good, {m.custodian}))
  {
    hide CustodianResult, CheckReleased, Shares;
    assert Spare(op.asked) == Some(2);
    var o := op.(answered := op.answered + {m.custodian}, deadlineMs := SatAdd(m.host.nowMs, STAGE_TIMEOUT_MS));
    FailureAsksOn(op, m);
    assert SendOrder(m.host, o, 2).verdict == Next(o.(asked := o.asked + {2}));
    MirrorsWider(op, op0, p, m.custodian, o.deadlineMs);
  }

  lemma MirrorsWider(op: Op, op0: Op, p: Poll, c: nat, deadlineMs: U64)
    requires Mirrors(op, op0, p) && p.bad == {} && Counted(op, c)
    ensures Mirrors(op.(answered := op.answered + {c}, deadlineMs := deadlineMs, asked := op.asked + {2}), op0, Poll(p.good, {c}))
  {
    var o := op.(answered := op.answered + {c}, deadlineMs := deadlineMs, asked := op.asked + {2});
    assert {0, 1} + {2} == {0, 1, 2};
    assert op.answered + {c} == p.good + {c};
    assert Shares(o, p.good);
  }

  lemma FailureAsksOn(op: Op, m: Message)
    requires Spare(op.asked) == Some(2) && !Valid(op.auth, m)
    requires Counted(op, m.custodian)
    ensures CustodianResult(m.host, op, m.custodian, m.ok, m.env)
         == SendOrder(m.host, op.(answered := op.answered + {m.custodian},
                                  deadlineMs := SatAdd(m.host.nowMs, STAGE_TIMEOUT_MS)), 2)
  {
  }

  /** The second ends it. */
  lemma SecondFailure(op: Op, op0: Op, p: Poll, m: Message)
    requires Mirrors(op, op0, p) && p.bad != {} && !Valid(op0.auth, m)
    requires Counted(op, m.custodian)
    ensures var t := CustodianResult(m.host, op, m.custodian, m.ok, m.env);
            t.orders == [] && t.verdict.Fail?
  {
    assert Spare(op.asked) == None;
  }

  lemma AskedByAppends(a: seq<Order>, b: seq<Order>)
    ensures AskedBy(a + b) == AskedBy(a) + AskedBy(b)
  {
  }

  /** A turn that waits for more, and what the poll says of it. */
  ghost predicate WaitsAt(t: Turn, op0: Op, p: Poll) {
    && t.verdict.Next? && p.Open() && Mirrors(t.verdict.op, op0, p)
    && AskedBy(t.orders) == (if p.bad == {} then [0, 1] else [0, 1, 2])
  }

  lemma NextShare(t: Turn, op0: Op, p: Poll, m: Message)
    requires WaitsAt(t, op0, p) && |p.good| == 0 && Valid(op0.auth, m)
    requires Counted(t.verdict.op, m.custodian)
    ensures Decides(Then(t, m), op0, Poll(p.good + {m.custodian}, p.bad))
  {
    OneLarger(p.good, m.custodian);
    assert t.orders + [] == t.orders;
    FirstShare(t.verdict.op, op0, p, m);
  }

  lemma LastShare(t: Turn, op0: Op, p: Poll, m: Message)
    requires WaitsAt(t, op0, p) && |p.good| == 1 && Working(m.host) && Valid(op0.auth, m)
    requires Counted(t.verdict.op, m.custodian)
    ensures Decides(Then(t, m), op0, Poll(p.good + {m.custodian}, p.bad))
  {
    OneLarger(p.good, m.custodian);
    SecondShare(t.verdict.op, op0, p, m);
    Completes(t, CustodianResult(m.host, t.verdict.op, m.custodian, m.ok, m.env), op0, p, Poll(p.good + {m.custodian}, p.bad));
  }

  lemma Completes(t: Turn, next: Turn, op0: Op, p: Poll, q: Poll)
    requires AskedBy(t.orders) == (if p.bad == {} then [0, 1] else [0, 1, 2])
    requires q.bad == p.bad && |q.good| == 2 && |q.bad| < 2
    requires next.verdict.Done? && next.orders == [] && HandsOver(next.verdict.op, op0, q.good)
    ensures Decides(next.(orders := t.orders + next.orders), op0, q)
  {
    assert t.orders + [] == t.orders;
  }

  lemma Fails(t: Turn, next: Turn, op0: Op, p: Poll, q: Poll)
    requires AskedBy(t.orders) == [0, 1, 2]
    requires q.good == p.good && |q.good| < 2 && |q.bad| == 2
    requires next.verdict.Fail? && next.orders == []
    ensures Decides(next.(orders := t.orders + next.orders), op0, q)
  {
    assert t.orders + [] == t.orders;
  }

  lemma NextFailure(t: Turn, op0: Op, p: Poll, m: Message)
    requires Orderable(op0) && WaitsAt(t, op0, p) && p.bad == {}
    requires Working(m.host) && !Valid(op0.auth, m) && Counted(t.verdict.op, m.custodian)
    ensures Decides(Then(t, m), op0, Poll(p.good, {m.custodian}))
  {
    AskedByAppends(t.orders, CustodianResult(m.host, t.verdict.op, m.custodian, m.ok, m.env).orders);
    FirstFailure(t.verdict.op, op0, p, m);
  }

  lemma LastFailure(t: Turn, op0: Op, p: Poll, m: Message)
    requires WaitsAt(t, op0, p) && p.bad != {} && !Valid(op0.auth, m)
    requires Counted(t.verdict.op, m.custodian)
    ensures Decides(Then(t, m), op0, Poll(p.good, p.bad + {m.custodian}))
  {
    OneLarger(p.bad, m.custodian);
    NoneIsEmpty(p.bad);
    SecondFailure(t.verdict.op, op0, p, m);
    Fails(t, CustodianResult(m.host, t.verdict.op, m.custodian, m.ok, m.env), op0, p, Poll(p.good, p.bad + {m.custodian}));
  }

  lemma OneMore(t: Turn, op0: Op, p: Poll, m: Message)
    requires Orderable(op0) && Decides(t, op0, p) && t.verdict.Next? && p.Open() && Working(m.host)
    ensures Decides(Then(t, m), op0, p.Hear(m.custodian, Valid(op0.auth, m)))
  {
    assert WaitsAt(t, op0, p);
    CountedWhenAsked(t.verdict.op, op0, p, m.custodian);
    hide CheckReleased, WriteBundle, HandsOver;
    if p.Asked(m.custodian) && m.custodian !in p.good && m.custodian !in p.bad {
      if Valid(op0.auth, m) {
        if |p.good| == 0 { NextShare(t, op0, p, m); } else { LastShare(t, op0, p, m); }
      } else {
        assert p.bad == {} ==> p.bad + {m.custodian} == {m.custodian};
        if p.bad == {} { NextFailure(t, op0, p, m); } else { LastFailure(t, op0, p, m); }
      }
    } else {
      IgnoredAnswer(t.verdict.op, op0, p, m);
      assert t.orders + [] == t.orders;
    }
  }

  lemma NoneIsEmpty(a: set<nat>)
    ensures |a| == 0 <==> a == {}
  {
  }

  /** However the messages fall: the release completes exactly when two
      custodians' answers were valid and fails exactly when two were not; the
      third custodian is asked after a failure only, nobody twice; an answer
      is counted once; and what is handed over is two shares of different
      custodians in ascending order, released under the authorisation. */
  lemma {:induction false} TwoOfThree(h: Host, op0: Op, msgs: seq<Message>)
    requires Orderable(op0) && Working(h) && AllWorking(msgs)
    ensures Decides(Collected(OrderShares(h, op0), msgs), op0, Polled(op0.auth, msgs))
  {
    if msgs == [] {
      OrderingAsksTwo(h, op0);
    } else {
      var less := msgs[..|msgs| - 1];
      TwoOfThree(h, op0, less);
      var p := Polled(op0.auth, less);
      if p.Open() {
        OneMore(Collected(OrderShares(h, op0), less), op0, p, msgs[|msgs| - 1]);
      }
    }
  }

  // ── A host that fails ──────────────────────────────────────────────────

  /** The same message to a host that can sign and reach everyone. */
  function Repaired(m: Message): Message {
    m.(host := m.host.(signOk := true, custodianUp := m.host.custodianUp + {0, 1, 2}))
  }

  /** All a failing host can do is refuse the release then and there. */
  lemma HostCanOnlyRefuse(op: Op, m: Message)
    requires op.stage == Custodians
    ensures var t := CustodianResult(m.host, op, m.custodian, m.ok, m.env);
            || t.(signs := {}) == CustodianResult(Repaired(m).host, op, m.custodian, m.ok, m.env).(signs := {})
            || (t.verdict.Fail? && t.orders == [])
  {
    hide CheckReleased, Readable, WriteBundle;
  }

  /** What is certain whatever host each message meets: nobody is asked twice,
      the third custodian only after another failed, and what is handed over
      is two valid answers' shares. */
  ghost predicate Bounded(t: Turn, op0: Op, p: Poll) {
    && AskedBy(t.orders) <= [0, 1, 2]
    && (2 in AskedBy(t.orders) ==> p.bad != {})
    && (t.verdict.Next? ==> WaitsAt(t, op0, p))
    && (t.verdict.Done? ==> |p.good| >= 2 && HandsOver(t.verdict.op, op0, p.good))
  }

  lemma DecidesIsBounded(t: Turn, op0: Op, p: Poll)
    requires Decides(t, op0, p)
    ensures Bounded(t, op0, p)
  {
    hide Mirrors, HandsOver;
  }

  lemma OrderingIsBounded(h: Host, op0: Op)
    requires Orderable(op0)
    ensures Bounded(OrderShares(h, op0), op0, Poll({}, {}))
  {
    var h' := h.(signOk := true, custodianUp := h.custodianUp + {0, 1, 2});
    OrderingAsksTwo(h', op0);
    DecidesIsBounded(OrderShares(h', op0), op0, Poll({}, {}));
  }

  lemma ThenRefused(t: Turn, m: Message)
    requires t.verdict.Next?
    requires var next := CustodianResult(m.host, t.verdict.op, m.custodian, m.ok, m.env); next.verdict.Fail? && next.orders == []
    ensures Then(t, m).verdict.Fail? && Then(t, m).orders == t.orders
  {
    assert t.orders + [] == t.orders;
  }

  lemma OneMoreIsBounded(t: Turn, op0: Op, p: Poll, m: Message)
    requires Orderable(op0) && Bounded(t, op0, p) && t.verdict.Next?
    ensures Bounded(Then(t, m), op0, p.Hear(m.custodian, Valid(op0.auth, m)))
  {
    var q := p.Hear(m.custodian, Valid(op0.auth, m));
    assert WaitsAt(t, op0, p);
    OneMoreRepaired(t, op0, p, m);
    HostCanOnlyRefuse(t.verdict.op, m);
    hide CustodianResult, Mirrors, HandsOver, Valid;
    if Then(t, m).(signs := {}) != Then(t, Repaired(m)).(signs := {}) { ThenRefused(t, m); }
  }

  lemma OneMoreRepaired(t: Turn, op0: Op, p: Poll, m: Message)
    requires Orderable(op0) && WaitsAt(t, op0, p)
    ensures Bounded(Then(t, Repaired(m)), op0, p.Hear(m.custodian, Valid(op0.auth, m)))
  {
    hide CustodianResult, CheckReleased, Mirrors, HandsOver, Orderable;
    PollOfTwo(t, op0, p);
    OneMore(t, op0, p, Repaired(m));
    assert Valid(op0.auth, Repaired(m)) == Valid(op0.auth, m);
    DecidesIsBounded(Then(t, Repaired(m)), op0, p.Hear(m.custodian, Valid(op0.auth, m)));
  }

  lemma PollOfTwo(t: Turn, op0: Op, p: Poll)
    requires WaitsAt(t, op0, p)
    ensures Decides(t, op0, p)
  {
  }

  /** The same for any number of messages to any hosts, and whose answers they
      were: each of the two handed over was given, and so was the failure that
      brought in the third. */
  lemma {:induction false} AnyHostAsksInTurn(h: Host, op0: Op, msgs: seq<Message>)
    requires Orderable(op0)
    ensures Bounded(Collected(OrderShares(h, op0), msgs), op0, Polled(op0.auth, msgs))
    ensures 2 in AskedBy(Collected(OrderShares(h, op0), msgs).orders) ==> exists c: nat :: Gave(op0.auth, msgs, c, false)
  {
    hide CustodianResult, Mirrors, HandsOver, Orderable, Valid;
    if msgs == [] {
      OrderingIsBounded(h, op0);
    } else {
      var less := msgs[..|msgs| - 1];
      AnyHostAsksInTurn(h, op0, less);
      var t, p := Collected(OrderShares(h, op0), less), Polled(op0.auth, less);
      if t.verdict.Next? { OneMoreIsBounded(t, op0, p, msgs[|msgs| - 1]); }
    }
    var bad := Polled(op0.auth, msgs).bad;
    if bad != {} {
      var c :| c in bad;
      PollCountsAnswers(op0.auth, msgs, c);
      assert Gave(op0.auth, msgs, c, false);
    }
  }

  /** A decided poll stays as it is. */
  lemma {:induction false} PollIsFinal(auth: Binding, msgs: seq<Message>, more: seq<Message>)
    requires !Polled(auth, msgs).Open()
    ensures Polled(auth, msgs + more) == Polled(auth, msgs)
  {
    if more == [] {
      assert msgs + more == msgs;
    } else {
      assert (msgs + more)[..|msgs + more| - 1] == msgs + more[..|more| - 1];
      PollIsFinal(auth, msgs, more[..|more| - 1]);
    }
  }

  ghost predicate Gave(auth: Binding, msgs: seq<Message>, c: nat, valid: bool) {
    exists i :: 0 <= i < |msgs| && msgs[i].custodian == c && Valid(auth, msgs[i]) == valid
  }

  lemma GaveGrows(auth: Binding, msgs: seq<Message>, c: nat, valid: bool)
    requires msgs != [] && Gave(auth, msgs[..|msgs| - 1], c, valid)
    ensures Gave(auth, msgs, c, valid)
  {
    var less := msgs[..|msgs| - 1];
    var i :| 0 <= i < |less| && less[i].custodian == c && Valid(auth, less[i]) == valid;
    assert msgs[i] == less[i];
  }

  /** Every answer the poll counts was given by a message of that custodian,
      and of each custodian at most one is counted. */
  lemma {:induction false} PollCountsAnswers(auth: Binding, msgs: seq<Message>, c: nat)
    ensures var p := Polled(auth, msgs);
            && (c in p.good ==> Gave(auth, msgs, c, true) && c !in p.bad && c <= 2)
            && (c in p.bad ==> Gave(auth, msgs, c, false) && c <= 2)
  {
    if msgs != [] {
      var less := msgs[..|msgs| - 1];
      PollCountsAnswers(auth, less, c);
      var p := Polled(auth, less);
      if c in p.good { GaveGrows(auth, msgs, c, true); }
      if c in p.bad { GaveGrows(auth, msgs, c, false); }
    }
  }
}
