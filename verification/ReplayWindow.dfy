/** The bounded replay window over proof digests: it refuses when it cannot
    remember, and never forgets a proof that could still be replayed. */
module ReplayWindow {
  import opened Basics

  datatype Entry = Entry(digest: nat, expiresAt: U64) {
    /** Held, and its proof could still be presented. */
    predicate Live(now: U64) { expiresAt != 0 && now < expiresAt }
  }

  datatype Replay = Recorded | Seen | Full

  /** One proof offered to the window. */
  datatype Attempt = Attempt(digest: nat, now: U64, expiresAt: U64)

  // ── What an offer does ─────────────────────────────────────────────────

  ghost predicate Holds(w: seq<Entry>, digest: nat, now: U64) {
    exists i :: 0 <= i < |w| && w[i].Live(now) && w[i].digest == digest
  }

  ghost predicate AllLive(w: seq<Entry>, now: U64) {
    forall i :: 0 <= i < |w| ==> w[i].Live(now)
  }

  /** The first slot not in use, or the number of slots. */
  function FirstIdle(w: seq<Entry>, now: U64): (i: nat)
    ensures i <= |w| && (i < |w| ==> !w[i].Live(now))
    ensures forall j :: 0 <= j < i ==> w[j].Live(now)
  {
    if w == [] || !w[0].Live(now) then 0 else 1 + FirstIdle(w[1..], now)
  }

  /** The window after an offer, and its answer. */
  ghost function Offered(w: seq<Entry>, o: Attempt): (r: (seq<Entry>, Replay))
    ensures |r.0| == |w|
    ensures r.1 == Seen <==> Holds(w, o.digest, o.now)
    ensures r.1 == Full <==> !Holds(w, o.digest, o.now) && AllLive(w, o.now)
    ensures r.1 != Recorded ==> r.0 == w
  {
    if Holds(w, o.digest, o.now) then (w, Seen)
    else
      var i := FirstIdle(w, o.now);
      if i < |w| then (w[i := Entry(o.digest, o.expiresAt)], Recorded) else (w, Full)
  }

  class Window {
    const digests: array<nat>
    const expiresAt: array<U64>

    ghost predicate Valid()
      reads this
    {
      digests.Length == expiresAt.Length
    }

    ghost function Entries(): (w: seq<Entry>)
      reads this, digests, expiresAt
      requires Valid()
      ensures |w| == digests.Length
      ensures forall i :: 0 <= i < |w| ==> w[i] == Entry(digests[i], expiresAt[i])
    {
      seq(digests.Length, i requires 0 <= i < digests.Length && Valid() reads this, digests, expiresAt =>
        Entry(digests[i], expiresAt[i]))
    }

    constructor (n: nat)
      ensures Valid() && fresh(digests) && fresh(expiresAt)
      ensures |Entries()| == n && forall i, now :: 0 <= i < n ==> !Entries()[i].Live(now)
    {
      digests := new nat[n](_ => 0);
      expiresAt := new U64[n](_ => 0);
    }

    method Offer(digest: nat, now: U64, until: U64) returns (r: Replay)
      requires Valid()
      modifies digests, expiresAt
      ensures Valid() && (Entries(), r) == Offered(old(Entries()), Attempt(digest, now, until))
    {
      ghost var w := Entries();
      var free: Option<nat> := None;
      for i := 0 to digests.Length
        invariant Entries() == w
        invariant forall j :: 0 <= j < i ==> !(w[j].Live(now) && w[j].digest == digest)
        invariant free.None? ==> forall j :: 0 <= j < i ==> w[j].Live(now)
        invariant free.Some? ==> free.value < i && !w[free.value].Live(now)
                                 && forall j :: 0 <= j < free.value ==> w[j].Live(now)
      {
        var live := expiresAt[i] != 0 && now < expiresAt[i];
        assert live == w[i].Live(now);
        if live {
          if digests[i] == digest {
            return Seen;
          }
        } else if free.None? {
          free := Some(i);
        }
      }
      match free {
        case Some(i) =>
          digests[i] := digest;
          expiresAt[i] := until;
          assert i == FirstIdle(w, now);
          assert Entries() == w[i := Entry(digest, until)];
          return Recorded;
        case None =>
          return Full;
      }
    }
  }

  // ── Over a sequence of offers ──────────────────────────────────────────

  /** The window after a sequence of offers. */
  ghost function After(w: seq<Entry>, offers: seq<Attempt>): (v: seq<Entry>)
    ensures |v| == |w|
  {
    if offers == [] then w else Offered(After(w, offers[..|offers| - 1]), offers[|offers| - 1]).0
  }

  /** What the window answered to offer `k`. */
  ghost function AnswerTo(w: seq<Entry>, offers: seq<Attempt>, k: nat): Replay
    requires k < |offers|
  {
    Offered(After(w, offers[..k]), offers[k]).1
  }

  /** The clock never goes back. */
  ghost predicate Forward(offers: seq<Attempt>) {
    forall i, j :: 0 <= i < j < |offers| ==> offers[i].now <= offers[j].now
  }

  ghost predicate Idle(w: seq<Entry>) { forall i :: 0 <= i < |w| ==> w[i].expiresAt == 0 }

  /** Live digests are distinct. */
  ghost predicate Distinct(w: seq<Entry>, now: U64) {
    forall i, j :: 0 <= i < j < |w| && w[i].Live(now) && w[j].Live(now) ==> w[i].digest != w[j].digest
  }

  /** An offer leaves every live entry where it is, and live digests distinct. */
  lemma OfferKeepsLive(w: seq<Entry>, o: Attempt)
    ensures forall i :: 0 <= i < |w| && w[i].Live(o.now) ==> Offered(w, o).0[i] == w[i]
    ensures Distinct(w, o.now) ==> Distinct(Offered(w, o).0, o.now)
  {
  }

  lemma {:induction false} LiveStayDistinct(w: seq<Entry>, offers: seq<Attempt>)
    requires Idle(w) && Forward(offers)
    ensures offers != [] ==> Distinct(After(w, offers), offers[|offers| - 1].now)
  {
    if offers != [] {
      var less := offers[..|offers| - 1];
      LiveStayDistinct(w, less);
      var before := After(w, less);
      var o := offers[|offers| - 1];
      if less != [] { assert forall i :: 0 <= i < |before| && before[i].Live(o.now) ==> before[i].Live(less[|less| - 1].now); }
      OfferKeepsLive(before, o);
    }
  }

  /** What was recorded is held for as long as it has to be. */
  lemma {:induction false} RecordedIsHeld(w: seq<Entry>, offers: seq<Attempt>, k: nat, now: U64)
    requires Forward(offers) && k < |offers| && AnswerTo(w, offers, k) == Recorded
    requires now < offers[k].expiresAt && offers[|offers| - 1].now <= now
    ensures Holds(After(w, offers), offers[k].digest, now)
  {
    var n := |offers| - 1;
    var before := After(w, offers[..n]);
    if k == n {
      var i := FirstIdle(before, offers[k].now);
      assert Offered(before, offers[k]).0[i] == Entry(offers[k].digest, offers[k].expiresAt);
    } else {
      assert offers[..n][..k] == offers[..k];
      RecordedIsHeld(w, offers[..n], k, now);
      var i :| 0 <= i < |before| && before[i].Live(now) && before[i].digest == offers[k].digest;
      OfferKeepsLive(before, offers[n]);
      assert Offered(before, offers[n]).0[i] == before[i];
    }
  }

  /** No digest is admitted twice before it expires, whatever else is offered
      and however full the window: a second offer is answered as seen. */
  lemma AdmittedOnce(w: seq<Entry>, offers: seq<Attempt>, j: nat, k: nat)
    requires Forward(offers) && j < k < |offers| && offers[j].digest == offers[k].digest
    requires AnswerTo(w, offers, j) == Recorded && offers[k].now < offers[j].expiresAt
    ensures AnswerTo(w, offers, k) == Seen
  {
    assert offers[..k][..j] == offers[..j];
    RecordedIsHeld(w, offers[..k], j, offers[k].now);
  }

  // ── Fresh proofs ───────────────────────────────────────────────────────

  /** A proof as checked: when it was made and how old it may be. */
  datatype Proof = Proof(digest: nat, iat: U64, maxAge: U64) {
    /** `check_proof` does not call it too old. */
    predicate Recent(now: U64) { (if now >= iat then now - iat else 0) <= maxAge }

    /** `replayable_until`. */
    function Until(): U64 { SatAdd(SatAdd(iat, maxAge), 1) }

    function AttemptAt(now: U64): Attempt { Attempt(digest, now, Until()) }
  }

  /** While a proof is recent its record is live, except in the last second
      the clock can show. */
  lemma RecentIsLive(p: Proof, now: U64)
    requires p.Recent(now)
    ensures now < p.Until() <==> now < U64_MAX
  {
  }

  /** A proof passes the window at most once while it passes the claim checks. */
  lemma ProofAdmittedOnce(w: seq<Entry>, offers: seq<Attempt>, j: nat, k: nat, p: Proof)
    requires Forward(offers) && j < k < |offers|
    requires offers[j] == p.AttemptAt(offers[j].now) && offers[k] == p.AttemptAt(offers[k].now)
    requires p.Recent(offers[k].now) && offers[k].now < U64_MAX
    ensures !(AnswerTo(w, offers, j) == Recorded && AnswerTo(w, offers, k) == Recorded)
  {
    RecentIsLive(p, offers[k].now);
    if AnswerTo(w, offers, j) == Recorded { AdmittedOnce(w, offers, j, k); }
  }

  /** Checked again under another age policy, a proof is still refused while
      the first policy calls it recent. */
  lemma OtherPolicyAdmitsOnce(w: seq<Entry>, offers: seq<Attempt>, j: nat, k: nat, p: Proof, q: Proof)
    requires Forward(offers) && j < k < |offers| && p.digest == q.digest
    requires offers[j] == p.AttemptAt(offers[j].now) && offers[k] == q.AttemptAt(offers[k].now)
    requires AnswerTo(w, offers, j) == Recorded && p.Recent(offers[k].now) && offers[k].now < U64_MAX
    ensures AnswerTo(w, offers, k) == Seen
  {
    RecentIsLive(p, offers[k].now);
    AdmittedOnce(w, offers, j, k);
  }

  /** And in a window with room it is admitted again exactly when it is not. */
  lemma WidenedPolicyAdmitsAgain(p: Proof, q: Proof, now: U64)
    requires p.digest == q.digest && p.iat == q.iat <= now < U64_MAX
    ensures var offers := [p.AttemptAt(p.iat), q.AttemptAt(now)];
            && AnswerTo([Entry(0, 0)], offers, 0) == Recorded
            && (AnswerTo([Entry(0, 0)], offers, 1) == Recorded <==> !p.Recent(now))
  {
    var w := [Entry(0, 0)];
    var first, second := p.AttemptAt(p.iat), q.AttemptAt(now);
    assert [first, second][..0] == [] && [first, second][..1] == [first] && [first][..0] == [];
    assert FirstIdle(w, p.iat) == 0;
    assert After(w, [first]) == [Entry(p.digest, p.Until())];
    RecentIsLive(p, p.iat);
    if p.Recent(now) {
      RecentIsLive(p, now);
    } else {
      assert FirstIdle([Entry(p.digest, p.Until())], now) == 0;
    }
  }

  /** In that last second it is admitted as often as it is offered. */
  lemma LastSecondAdmitsAgain(p: Proof)
    requires p.Recent(U64_MAX)
    ensures var o := p.AttemptAt(U64_MAX);
            AnswerTo([Entry(0, 0)], [o, o], 0) == Recorded && AnswerTo([Entry(0, 0)], [o, o], 1) == Recorded
  {
    var o := p.AttemptAt(U64_MAX);
    var w := [Entry(0, 0)];
    assert [o, o][..0] == [] && [o, o][..1] == [o] && [o][..0] == [];
    RecentIsLive(p, U64_MAX);
    assert FirstIdle(w, U64_MAX) == 0;
    assert After(w, [o]) == [Entry(o.digest, o.expiresAt)];
  }
}
