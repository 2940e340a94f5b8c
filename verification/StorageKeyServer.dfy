/** The service as it runs: slots and challenges overwritten in place. Each
    method is the corresponding function of the service on its contents. */
module StorageKeyServer {
  import opened Basics
  import opened StorageKey
  import opened Ledger
  import opened StorageKeyService

  // ── Retained epochs ────────────────────────────────────────────────────

  /** The fixed table a grant's retained epochs are edited in. */
  class RetainedEpochs {
    const slots: array<U32>
    var len: nat

    ghost predicate Valid()
      reads this, slots
    {
      slots.Length == MAX_RETAINED_EPOCHS && len <= slots.Length && forall i :: len <= i < slots.Length ==> slots[i] == 0
    }

    ghost function Contents(): (s: seq<U32>)
      reads this, slots
      requires Valid()
    {
      slots[..len]
    }

    constructor ()
      ensures Valid() && fresh(slots) && Contents() == []
    {
      slots := new U32[MAX_RETAINED_EPOCHS](_ => 0);
      len := 0;
    }

    /** Keep `epoch` admitted: the epoch a rotation leaves. */
    method Push(epoch: U32) returns (r: Result<(), Refusal>)
      requires Valid()
      modifies this`len, slots
      ensures Valid()
      ensures RetainedPush(old(Contents()), epoch) == if r.Ok? then Ok(Contents()) else Err(r.error)
      ensures r.Err? ==> Contents() == old(Contents())
    {
      if len >= MAX_RETAINED_EPOCHS {
        return Err(RetainedEpochsFull);
      }
      if epoch == 0 || (len > 0 && slots[len - 1] >= epoch) {
        return Err(WrongEpoch);
      }
      slots[len] := epoch;
      len := len + 1;
      assert Contents() == old(Contents()) + [epoch];
      return Ok(());
    }

    /** Stop admitting `epoch`: close the gap it leaves. */
    method Remove(epoch: U32) returns (was: bool)
      requires Valid()
      modifies this`len, slots
      ensures Valid()
      ensures was == (epoch in old(Contents()))
      ensures Contents() == RetainedRemove(old(Contents()), epoch)
    {
      ghost var before := Contents();
      var at := 0;
      while at < len && slots[at] != epoch
        invariant at <= len && epoch !in slots[..at]
      {
        at := at + 1;
      }
      FirstPosition(before, epoch, at);
      if at == len {
        return false;
      }
      CloseGap(at);
      return true;
    }

    /** Shift what follows `at` down over it. */
    method CloseGap(at: nat)
      requires Valid() && at < len
      modifies this`len, slots
      ensures Valid() && Contents() == old(Contents())[..at] + old(Contents())[at + 1..]
    {
      ghost var before := Contents();
      var i := at;
      while i + 1 < len
        invariant at <= i < len && len == |before| && Valid()
        invariant forall k :: at <= k < i ==> slots[k] == before[k + 1]
        invariant forall k :: 0 <= k < at || i < k < len ==> slots[k] == before[k]
      {
        slots[i] := slots[i + 1];
        i := i + 1;
      }
      slots[len - 1] := 0;
      len := len - 1;
    }
  }

  lemma FirstPosition(epochs: seq<U32>, epoch: U32, at: nat)
    requires at <= |epochs| && epoch !in epochs[..at] && (at < |epochs| ==> epochs[at] == epoch)
    ensures PositionOf(epochs, epoch) == at
    ensures epoch in epochs <==> at < |epochs|
  {
    var i := PositionOf(epochs, epoch);
    assert forall j :: 0 <= j < at ==> epochs[..at][j] == epochs[j];
    assert forall j :: 0 <= j < i ==> epochs[..i][j] == epochs[j];
  }

  // ── Challenges ─────────────────────────────────────────────────────────

  predicate IsFree(c: Challenge) { c.expiresMs == 0 }

  /** Issuing takes a free slot when there is one, and otherwise the live
      challenge that expires soonest: none is made to last longer. */
  lemma {:induction false} SlotTakenIsSafe(cs: seq<Challenge>, i: nat, best: nat)
    requires cs != [] && i <= |cs| && best < |cs|
    requires forall j :: 0 <= j < i ==> !IsFree(cs[j]) && cs[best].expiresMs <= cs[j].expiresMs
    ensures var slot := ChallengeSlot(cs, i, best);
            && slot < |cs|
            && ((exists j :: 0 <= j < |cs| && IsFree(cs[j])) ==> IsFree(cs[slot]))
            && (forall j :: 0 <= j < |cs| ==> cs[slot].expiresMs <= cs[j].expiresMs)
    decreases |cs| - i
  {
    if i < |cs| && !IsFree(cs[i]) {
      SlotTakenIsSafe(cs, i + 1, if i == 0 || cs[i].expiresMs < cs[best].expiresMs then i else best);
    }
  }

  /** Live challenges have different nonces. */
  ghost predicate NoncesDiffer(cs: seq<Challenge>) {
    forall i, j :: 0 <= i < j < |cs| && !IsFree(cs[i]) && !IsFree(cs[j]) ==> cs[i].nonce != cs[j].nonce
  }

  /** A challenge answers one request: spent, whether or not the request held,
      it is gone, and every other challenge stays. */
  lemma ChallengesAreSpentOnce(cs: seq<Challenge>, req: AttachRequest, nowMs: U64)
    requires NoncesDiffer(cs)
    ensures var (cs', spent) := SpendChallenge(cs, req, nowMs);
            && NoncesDiffer(cs')
            && ChallengeAt(cs', req.challenge) == |cs'|
            && (forall other, nowMs' :: SpendChallenge(cs', req.(device := other), nowMs').1 == Refused(ChallengeUnknown))
            && (spent.Passed? <==>
                  exists i :: 0 <= i < |cs| && cs[i].nonce == req.challenge && nowMs < cs[i].expiresMs
                              && cs[i].res == req.res && cs[i].device == req.device)
            && (forall j :: 0 <= j < |cs| && cs[j].nonce != req.challenge ==> cs'[j] == cs[j])
  {
    var i := ChallengeAt(cs, req.challenge);
    var cs' := SpendChallenge(cs, req, nowMs).0;
    forall j | 0 <= j < |cs'| ensures IsFree(cs'[j]) || cs'[j].nonce != req.challenge {
      if i < j { assert !IsFree(cs[j]) ==> cs[i].nonce != cs[j].nonce; }
    }
  }

  // ── The service ────────────────────────────────────────────────────────

  class Service {
    const ops: array<Option<Op>>
    const challenges: array<Challenge>
    var nextCorr: nat

    ghost predicate Valid()
      reads this
    {
      ops.Length == MAX_OPS && challenges.Length == MAX_CHALLENGES
    }

    /** What the service holds, as a value. */
    ghost function View(): (s: Svc)
      reads this, ops, challenges
    {
      Svc(ops[..], challenges[..], nextCorr)
    }

    constructor ()
      ensures Valid() && fresh(ops) && fresh(challenges) && View() == NewSvc()
    {
      ops := new Option<Op>[MAX_OPS](_ => None);
      challenges := new Challenge[MAX_CHALLENGES](_ => FREE_CHALLENGE);
      nextCorr := 1;
    }

    /** Take the slot a new challenge goes to. */
    method PickChallengeSlot() returns (slot: nat)
      requires Valid()
      ensures slot < challenges.Length && slot == ChallengeSlot(challenges[..], 0, 0)
    {
      slot := 0;
      var soonest: U64 := U64_MAX;
      var i := 0;
      while i < challenges.Length
        invariant i <= challenges.Length && slot < challenges.Length
        invariant i == 0 ==> slot == 0 && soonest == U64_MAX
        invariant i > 0 ==> soonest == challenges[slot].expiresMs
        invariant ChallengeSlot(challenges[..], 0, 0) == ChallengeSlot(challenges[..], i, slot)
      {
        if challenges[i].expiresMs == 0 {
          slot := i;
          return;
        }
        if challenges[i].expiresMs < soonest {
          soonest := challenges[i].expiresMs;
          slot := i;
        }
        i := i + 1;
      }
    }

    method Issue(h: Host, caller: nat, p: Payload) returns (reply: Reply)
      requires Valid()
      modifies challenges
      ensures (challenges[..], reply) == IssueChallenge(h, old(challenges[..]), caller, p)
    {
      if !p.res.Valid() || !p.fields.DeviceOnly? || p.fields.device == 0 {
        return RefuseNow(caller, p.code, Malformed);
      }
      if h.nowMs == 0 {
        return RefuseNow(caller, p.code, LedgerUnavailable);
      }
      var slot := PickChallengeSlot();
      if h.drawn.None? {
        return RefuseNow(caller, p.code, Busy);
      }
      var expires := SatAdd(h.nowMs, CHALLENGE_TTL_MS);
      challenges[slot] := Challenge(h.drawn.value.0, p.res, p.fields.device, expires);
      return Reply(caller, p.code, None, true, None, [], Some((h.drawn.value.0, expires)));
    }

    /** Spend the challenge a proven request names. */
    method Spend(req: AttachRequest, nowMs: U64) returns (spent: Check<Refusal>)
      requires Valid()
      modifies challenges
      ensures (challenges[..], spent) == SpendChallenge(old(challenges[..]), req, nowMs)
    {
      var i := 0;
      while i < challenges.Length && !(challenges[i].expiresMs != 0 && challenges[i].nonce == req.challenge)
        invariant i <= challenges.Length
        invariant forall j :: 0 <= j < i ==> !(challenges[j].expiresMs != 0 && challenges[j].nonce == req.challenge)
      {
        i := i + 1;
      }
      assert i == ChallengeAt(challenges[..], req.challenge);
      if i == challenges.Length {
        return Refused(ChallengeUnknown);
      }
      var held := challenges[i];
      challenges[i] := FREE_CHALLENGE;
      if nowMs >= held.expiresMs || held.res != req.res || held.device != req.device {
        return Refused(ChallengeUnknown);
      }
      return Passed;
    }

    /** The first turn of a request that took a slot. */
    method Begin(h: Host, op: Op) returns (t: Turn)
      requires Valid()
      modifies challenges
      ensures (challenges[..], t) == Start(h, old(challenges[..]), op)
    {
      if !op.IsProven() || op.Attach().Err? || !op.res.Valid() || op.Attach().value.device == 0 {
        return Start(h, [], op).1;
      }
      var req := op.Attach().value;
      var spent := Spend(req, h.nowMs);
      var o := op.(audit := op.audit.(antiReplay := req.antiReplay, fence := req.fence, epoch := req.epoch));
      if spent.Refused? {
        return Refuse(o, spent.error);
      }
      return Send(h, o, GetGrant);
    }

    method Request(h: Host, caller: nat, p: Payload) returns (r: Outcome)
      requires Valid()
      modifies this`nextCorr, ops, challenges
      ensures Valid() && (View(), r) == OnRequest(old(View()), h, caller, p)
    {
      if p.code == ChallengeOp {
        var reply := Issue(h, caller, p);
        return Silent().(replies := [reply]);
      }
      if !h.keyLoaded {
        return Silent().(replies := [RefuseNow(caller, p.code, NoIssuerKey)]);
      }
      if h.nowMs == 0 {
        return Silent().(replies := [RefuseNow(caller, p.code, LedgerUnavailable)]);
      }
      var i := 0;
      while i < ops.Length && ops[i].Some?
        invariant i <= ops.Length && forall j :: 0 <= j < i ==> ops[j].Some?
      {
        i := i + 1;
      }
      assert i == FreeSlot(ops[..]);
      if i == ops.Length {
        return Silent().(replies := [RefuseNow(caller, p.code, Busy)]);
      }
      var turn := Begin(h, NewOp(h, caller, nextCorr, p));
      nextCorr := nextCorr + 1;
      r := Settle(h, turn);
      ops[i] := r.op;
    }

    method LedgerReply(h: Host, corr: nat, status: Status, etag: Etag, value: Value) returns (r: Outcome)
      requires Valid()
      modifies ops
      ensures Valid() && (View(), r) == OnLedger(old(View()), h, corr, status, etag, value)
    {
      var i := 0;
      while i < ops.Length && !AwaitsLedgerReply(ops[i], corr)
        invariant i <= ops.Length && forall j :: 0 <= j < i ==> !AwaitsLedgerReply(ops[j], corr)
      {
        i := i + 1;
      }
      assert i == LedgerSlot(ops[..], corr);
      if i == ops.Length {
        return Silent();
      }
      r := OnLedgerOp(h, ops[i].value, status, etag, value);
      ops[i] := r.op;
    }

    method CustodianReply(h: Host, corr: nat, custodian: nat, ok: bool, env: Envelope) returns (r: Outcome)
      requires Valid()
      modifies ops
      ensures Valid() && (View(), r) == OnCustodian(old(View()), h, corr, custodian, ok, env)
    {
      var i := 0;
      while i < ops.Length && !AwaitsCustodianReply(ops[i], corr)
        invariant i <= ops.Length && forall j :: 0 <= j < i ==> !AwaitsCustodianReply(ops[j], corr)
      {
        i := i + 1;
      }
      assert i == CustodianSlot(ops[..], corr);
      if i == ops.Length {
        return Silent();
      }
      r := OnCustodianOp(h, ops[i].value, custodian, ok, env);
      ops[i] := r.op;
    }

    method ClearChallenges(nowMs: U64)
      requires Valid()
      modifies challenges
      ensures challenges[..] == ExpireChallenges(old(challenges[..]), nowMs)
    {
      ghost var target := ExpireChallenges(challenges[..], nowMs);
      for c := 0 to challenges.Length
        invariant forall j :: 0 <= j < c ==> challenges[j] == target[j]
        invariant forall j :: c <= j < challenges.Length ==> challenges[j] == old(challenges[j])
      {
        if challenges[c].expiresMs != 0 && nowMs >= challenges[c].expiresMs {
          challenges[c] := FREE_CHALLENGE;
        }
      }
    }

    /** Clear what has expired, and end at most one operation. */
    method Expire(h: Host) returns (r: Outcome)
      requires Valid()
      modifies ops, challenges
      ensures Valid() && (View(), r) == Tick(old(View()), h)
    {
      ghost var before := View();
      ClearChallenges(h.nowMs);
      assert ops[..] == before.ops;
      var i := 0;
      while i < ops.Length && !IsExpired(ops[i], h.nowMs)
        invariant i <= ops.Length && forall j :: 0 <= j < i ==> !IsExpired(ops[j], h.nowMs)
      {
        i := i + 1;
      }
      assert i == ExpiredSlot(ops[..], h.nowMs);
      if i == ops.Length {
        return Silent();
      }
      r := OnExpiredOp(h, ops[i].value);
      ops[i] := r.op;
    }
  }
}
