/** Growing the log: what it holds it keeps, and a write that follows the
    rules of its key keeps the log, the ledger and the recovery sets right. */
module StorageKeyLog {
  import opened Basics
  import opened StorageKey
  import opened Ledger
  import opened StorageKeyService
  import opened StorageKeySystem
  import opened StorageKeyInvariants

  // ── Facts stay ─────────────────────────────────────────────────────────

  ghost predicate Grows(a: seq<Write>, b: seq<Write>) {
    |a| <= |b| && forall i :: 0 <= i < |a| ==> a[i] == b[i]
  }

  lemma WritesStay(a: seq<Write>, b: seq<Write>)
    requires Grows(a, b)
    ensures forall i, k, v :: WroteAt(a, i, k, v) ==> WroteAt(b, i, k, v)
    ensures forall w, k, v :: Wrote(a, w, k, v) ==> Wrote(b, w, k, v)
    ensures forall w, id :: Claimed(a, w, id) ==> Claimed(b, w, id)
  {
    forall w, k, v | Wrote(a, w, k, v) ensures Wrote(b, w, k, v) {
      var i: nat :| i < |a| && a[i] == Write(k, v, ByOp(w));
      assert b[i] == Write(k, v, ByOp(w));
    }
    forall w, id | Claimed(a, w, id) ensures Claimed(b, w, id) {
      assert Wrote(b, w, ReplayKey(id), Claim);
    }
  }

  lemma SpendingStays(a: seq<Write>, b: seq<Write>)
    requires Grows(a, b)
    ensures forall w, r, t, e :: Spent(a, w, r, t, e) ==> Spent(b, w, r, t, e)
    ensures forall w, x :: SpentSome(a, w, x) ==> SpentSome(b, w, x)
    ensures forall w, c, rec :: Audited(a, w, c, rec) ==> Audited(b, w, c, rec)
  {
    forall w, r, t, e: U32 | Spent(a, w, r, t, e) ensures Spent(b, w, r, t, e) {
      var i: nat :| i < |a| && a[i].writer == ByOp(w) && a[i].key == TicketKey(r, t)
        && a[i].value.Rec? && a[i].value.rec.b.consumed && a[i].value.rec.b.epoch == e;
      assert b[i] == a[i];
    }
    forall w, x | SpentSome(a, w, x) ensures SpentSome(b, w, x) {
      var t :| Spent(a, w, x.res, t, x.epoch);
      assert Spent(b, w, x.res, t, x.epoch);
    }
    forall w, c, rec | Audited(a, w, c, rec) ensures Audited(b, w, c, rec) {
      var i: nat :| i < |a| && a[i].writer == ByOp(w) && a[i].key.AuditKey?
        && a[i].value.AuditEntry? && a[i].value.audit.refusal.None? && a[i].value.audit.op == c
        && a[i].value.audit.record == DigestOf(rec);
      assert b[i] == a[i];
    }
  }

  lemma GrantFactsStay(a: seq<Write>, b: seq<Write>)
    requires Grows(a, b)
    ensures forall r, e :: Dead(a, r, e) ==> Dead(b, r, e)
    ensures forall r :: WasErased(a, r) ==> WasErased(b, r)
    ensures forall r, e :: WasAdmitted(a, r, e) ==> WasAdmitted(b, r, e)
    ensures forall r, e, id :: CreationBacked(a, r, e, id) ==> CreationBacked(b, r, e, id)
    ensures forall r, e, id :: HasCreation(a, r, e, id) ==> HasCreation(b, r, e, id)
    ensures forall r, e :: HasRecoverySet(a, r, e) ==> HasRecoverySet(b, r, e)
  {
    forall r, e: U32 | Dead(a, r, e) ensures Dead(b, r, e) {
      var i: nat :| i < |a| && a[i].key == GrantKey(r) && a[i].value.Rec?
        && (|| a[i].value.rec.b.kind == Erasure
            || (IsGrant(a[i].value.rec) && e < a[i].value.rec.b.epoch && !Admits(a[i].value.rec, e)));
      assert b[i] == a[i];
    }
    forall r | WasErased(a, r) ensures WasErased(b, r) {
      var i: nat :| i < |a| && a[i].key == GrantKey(r) && a[i].value.Rec? && a[i].value.rec.b.kind == Erasure;
      assert b[i] == a[i];
    }
    forall r, e: U32 | WasAdmitted(a, r, e) ensures WasAdmitted(b, r, e) {
      var i: nat :| i < |a| && a[i].key == GrantKey(r) && a[i].value.Rec?
        && IsGrant(a[i].value.rec) && Admits(a[i].value.rec, e);
      assert b[i] == a[i];
    }
    forall r, e: U32, id | CreationBacked(a, r, e, id) ensures CreationBacked(b, r, e, id) {
      var i: nat :| i < |a| && a[i].key == GrantKey(r) && a[i].value.Rec? && IsGrant(a[i].value.rec)
        && (|| (e == 1 && a[i].value.rec.b.epoch == 1 && a[i].value.rec.b.setId == id)
            || a[i].value.rec.b.epoch + 1 == e);
      assert b[i] == a[i];
    }
    forall r, e: U32, id | HasCreation(a, r, e, id) ensures HasCreation(b, r, e, id) {
      var i: nat :| i < |a| && a[i].key == SetKey(r, e) && a[i].value.Rec?
        && a[i].value.rec.b.kind == Creation && a[i].value.rec.b.setId == id;
      assert b[i] == a[i];
    }
    forall r, e: U32 | HasRecoverySet(a, r, e) ensures HasRecoverySet(b, r, e) {
      var i: nat :| i < |a| && a[i].key == SetKey(r, e) && a[i].value.Rec? && a[i].value.rec.b.kind == RecoverySet;
      assert b[i] == a[i];
    }
  }

  lemma GrantedStays(a: seq<Write>, b: seq<Write>)
    requires Grows(a, b)
    ensures forall x, d :: Granted(a, x, d) ==> Granted(b, x, d)
    ensures forall op :: GrantedTo(a, op) ==> GrantedTo(b, op)
  {
    forall x, d | Granted(a, x, d) ensures Granted(b, x, d) {
      var i: nat :| i < |a| && a[i].key == GrantKey(x.res) && a[i].value.Rec? && AdmitsBinding(a[i].value.rec, x, d);
      assert b[i] == a[i];
      if x.kind != Renewal {
        var j: nat :| j < |a| && a[j].key == SetKey(x.res, x.epoch) && a[j].value.Rec?
          && a[j].value.rec.b.kind == RecoverySet && a[j].value.rec.b.setId == x.setId;
        assert b[j] == a[j];
      }
    }
  }

  lemma ReqStays(a: seq<Write>, b: seq<Write>, who: Who, req: Request)
    requires Grows(a, b) && ReqOk(a, who, req)
    ensures ReqOk(b, who, req)
  {
    WritesStay(a, b);
    SpendingStays(a, b);
    GrantFactsStay(a, b);
  }

  lemma AckStays(a: seq<Write>, b: seq<Write>, p: Packet)
    requires Grows(a, b) && p.Ack? && AckOk(a, p)
    ensures AckOk(b, p)
  {
    WritesStay(a, b);
  }

  lemma StageStays(a: seq<Write>, b: seq<Write>, who: Who, op: Op)
    requires Grows(a, b) && StageOk(a, who, op)
    ensures StageOk(b, who, op)
  {
    WritesStay(a, b);
    SpendingStays(a, b);
    if op.IsProven() {
      GrantedStays(a, b);
    } else {
      GrantFactsStay(a, b);
    }
    hide Grows, Wrote, Claimed, Audited, SpentSome, GrantedTo, Granted, Dead, WasErased, HasRecoverySet, GrantSucc, Admits;
  }

  lemma OpStays(a: seq<Write>, b: seq<Write>, who: Who, op: Op)
    requires Grows(a, b) && OpOk(a, who, op)
    ensures OpOk(b, who, op)
  {
    StageStays(a, b, who, op);
    if !AwaitsCustodians(op.stage) {
      ReqStays(a, b, who, StageRequest(op));
    }
  }

  lemma OutputStays(a: seq<Write>, b: seq<Write>)
    requires Grows(a, b)
    ensures forall from, r :: ReplyOk(a, from, r) ==> ReplyOk(b, from, r)
    ensures forall who, o :: OrderOk(a, who, o) ==> OrderOk(b, who, o)
  {
    GrantedStays(a, b);
    WritesStay(a, b);
    SpendingStays(a, b);
  }

  // ── Grant histories ────────────────────────────────────────────────────

  lemma GrantLeStep(a: Record, b: Record, c: Record)
    requires GrantLe(a, b) && GrantSucc(b, c)
    ensures GrantLe(a, c)
  {
    if a != b {
      assert IsGrant(a) && IsGrant(b);
    }
    if IsGrant(c) {
      forall e: U32 | e <= b.b.epoch && Admits(c, e) ensures Admits(b, e) {
        if c.b.epoch == b.b.epoch && Retained(c) != Retained(b) {
          var k: nat :| k < |Retained(b)| && Retained(c) == Retained(b)[..k] + Retained(b)[k + 1..];
        }
      }
    }
  }

  // ── One more write ─────────────────────────────────────────────────────

  /** The write is the first of its key, or follows the last one at `prev`. */
  ghost predicate Continues(log: seq<Write>, w: Write, prev: Option<nat>) {
    match prev
    case None => (forall i: nat :: i < |log| ==> log[i].key != w.key) && First(w.key, w.value)
    case Some(i) =>
      && i < |log| && log[i].key == w.key
      && (forall j: nat :: i < j < |log| ==> log[j].key != w.key)
      && Succ(w.key, log[i].value, w.value)
  }

  lemma ChainedAppend(log: seq<Write>, w: Write, prev: Option<nat>)
    requires Chained(log)
    requires Permanent(w.key) ==> Continues(log, w, prev)
    ensures Chained(log + [w])
  {
    var b := log + [w];
    var n := |log|;
    forall j: nat | IsFirst(b, j) && Permanent(b[j].key) ensures First(b[j].key, b[j].value) {
      if j < n {
        assert forall m: nat :: m < j ==> log[m].key == b[m].key;
        assert IsFirst(log, j);
      } else {
        assert forall m: nat :: m < n ==> b[m] == log[m] && log[m].key != w.key;
      }
    }
    forall i: nat, j: nat | Follows(b, i, j) && Permanent(b[j].key) ensures Succ(b[j].key, b[i].value, b[j].value) {
      if j < n {
        assert forall m: nat :: i < m < j ==> log[m].key == b[m].key;
        assert Follows(log, i, j);
      } else {
        assert log[i].key == w.key;
        assert b[prev.value] == log[prev.value];
        assert i == prev.value;
      }
    }
  }

  lemma TypedAppend(log: seq<Write>, w: Write, prev: Option<nat>)
    requires Typed(log)
    requires !w.key.DeviceKey? ==> (First(w.key, w.value) || (prev.Some? && prev.value < |log| && log[prev.value].key == w.key
                                     && Succ(w.key, log[prev.value].value, w.value)))
    ensures Typed(log + [w])
  {
  }

  lemma OrderedAppend(log: seq<Write>, w: Write, prev: Option<nat>)
    requires Ordered(log)
    requires w.key.GrantKey? ==> Continues(log, w, prev)
    ensures Ordered(log + [w])
  {
    var b := log + [w];
    forall i: nat, j: nat | i <= j < |b| && b[i].key.GrantKey? && b[i].key == b[j].key && b[i].value.Rec? && b[j].value.Rec?
      ensures GrantLe(b[i].value.rec, b[j].value.rec)
    {
      if i < j == |log| {
        var p := prev.value;
        assert i <= p;
        GrantLeStep(log[i].value.rec, log[p].value.rec, w.value.rec);
      }
    }
  }

  lemma TrailAppend(log: seq<Write>, w: Write)
    requires TrailBacked(log)
    requires w.key.AuditKey? && w.writer.ByOp? ==> w.value.AuditEntry? && AuditBacked(log, w.writer.who, w.value.audit)
    ensures TrailBacked(log + [w])
  {
    var b := log + [w];
    forall i: nat | i < |b| && b[i].key.AuditKey? && b[i].writer.ByOp?
      ensures b[i].value.AuditEntry? && AuditBacked(b[..i], b[i].writer.who, b[i].value.audit)
    {
      assert b[..i] == log[..i];
      if i == |log| {
        assert log[..i] == log;
      }
    }
  }

  lemma AppendOk(log: seq<Write>, w: Write, prev: Option<nat>)
    requires LogOk(log)
    requires !w.key.DeviceKey? && !w.key.SetKey? ==> Continues(log, w, prev)
    requires w.key.SetKey? ==> First(w.key, w.value) || (prev.Some? && prev.value < |log| && log[prev.value].key == w.key
                                     && Succ(w.key, log[prev.value].value, w.value))
    requires w.key.AuditKey? && w.writer.ByOp? ==> w.value.AuditEntry? && AuditBacked(log, w.writer.who, w.value.audit)
    ensures LogOk(log + [w])
  {
    ChainedAppend(log, w, prev);
    TypedAppend(log, w, prev);
    OrderedAppend(log, w, prev);
    TrailAppend(log, w);
  }

  lemma StoreKeepsLedger(s: Storage, k: Key, v: Value, writer: Writer)
    requires LedgerOk(s)
    ensures LedgerOk(Store(s, k, v, writer))
  {
    var t := Store(s, k, v, writer);
    assert forall i: nat :: i < |s.log| ==> t.log[i] == s.log[i];
  }

  lemma DeleteKeepsLedger(s: Storage, who: Who, k: Key, e: Etag)
    requires LedgerOk(s) && !Permanent(k)
    ensures LedgerOk(Effect(s, who, Delete(k, e)))
  {
  }

  // ── Recovery sets ──────────────────────────────────────────────────────

  /** A write elsewhere leaves a resource's sets alone. */
  lemma SetsElsewhere(s: Storage, k: Key, v: Value, writer: Writer, r: Resource, g: Record)
    requires SetsOk(s, r, g) && !(k.SetKey? && k.res == r)
    ensures SetsOk(Store(s, k, v, writer), r, g)
  {
    var t := Store(s, k, v, writer);
    assert forall i: nat :: i < |s.log| ==> t.log[i] == s.log[i];
    assert forall e :: SetHeld(t, r, e) == SetHeld(s, r, e);
  }

  lemma OrderedAt(log: seq<Write>, i: nat, j: nat)
    requires Typed(log) && Ordered(log) && i <= j < |log| && log[i].key.GrantKey? && log[i].key == log[j].key
    ensures log[i].value.Rec? && log[j].value.Rec? && GrantLe(log[i].value.rec, log[j].value.rec)
    ensures IsGrant(log[j].value.rec) || log[j].value.rec.b.kind == Erasure
  {
  }

  /** The current grant is a value the log holds, and the latest. */
  lemma CurrentIsLatest(s: Storage, r: Resource, i: nat)
    requires LogOk(s.log) && LedgerOk(s)
    requires i < |s.log| && s.log[i].key == GrantKey(r)
    ensures s.log[i].value.Rec? && CurrentGrant(s, r).Some?
    ensures GrantLe(s.log[i].value.rec, CurrentGrant(s, r).value)
    ensures CurrentGrant(s, r).value.b.kind == Grant ==> IsGrant(CurrentGrant(s, r).value)
  {
    LastWriteStands(s, GrantKey(r), i);
    OrderedAt(s.log, i, s.ledger[GrantKey(r)].etag);
  }

  /** What stands under a permanent key is its last write. */
  lemma LastWriteStands(s: Storage, k: Key, i: nat)
    requires LedgerOk(s) && Permanent(k) && i < |s.log| && s.log[i].key == k
    ensures k in s.ledger && i <= s.ledger[k].etag < |s.log|
    ensures s.log[s.ledger[k].etag].key == k && s.log[s.ledger[k].etag].value == s.ledger[k].value
  {
    assert WroteAt(s.log, s.ledger[k].etag, k, s.ledger[k].value);
  }

  lemma FirstGrantSets(s: Storage, r: Resource, v: Value, writer: Writer)
    requires LedgerOk(s) && CustodyOk(s) && GrantKey(r) !in s.ledger && First(GrantKey(r), v)
    ensures SetsOk(Store(s, GrantKey(r), v, writer), r, v.rec)
  {
    var t := Store(s, GrantKey(r), v, writer);
    assert forall i: nat :: i < |s.log| ==> t.log[i] == s.log[i];
    assert forall i: nat :: i < |s.log| && s.log[i].key.SetKey? ==> s.log[i].key.res != r;
    assert SetKey(r, 1) in s.ledger ==> WroteAt(s.log, s.ledger[SetKey(r, 1)].etag, SetKey(r, 1), s.ledger[SetKey(r, 1)].value);
  }

  lemma NextGrantSets(s: Storage, r: Resource, v: Value, writer: Writer)
    requires LogOk(s.log) && LedgerOk(s)
    requires CurrentGrant(s, r).Some? && SetsOk(s, r, CurrentGrant(s, r).value)
    requires v.Rec? && v.rec.b.kind == Grant && CurrentGrant(s, r).value.b.res == r
    requires GrantSucc(CurrentGrant(s, r).value, v.rec) && RotationBacked(s.log, CurrentGrant(s, r).value, v.rec)
    ensures SetsOk(Store(s, GrantKey(r), v, writer), r, v.rec)
  {
    var g := CurrentGrant(s, r).value;
    if v.rec.b.epoch != g.b.epoch {
      RotatedSets(s, r, g, v.rec);
    } else {
      SameEpochSets(s, r, g, v.rec);
    }
    SetsElsewhere(s, GrantKey(r), v, writer, r, v.rec);
  }

  lemma SameEpochSets(s: Storage, r: Resource, g: Record, g': Record)
    requires SetsOk(s, r, g) && GrantSucc(g, g') && g'.b.kind == Grant && g'.b.epoch == g.b.epoch
    ensures SetsOk(s, r, g')
  {
    GrantLeStep(g, g, g');
    forall e | e in Retained(g') ensures e in Retained(g) {
      if Retained(g') != Retained(g) {
        var k: nat :| k < |Retained(g)| && Retained(g') == Retained(g)[..k] + Retained(g)[k + 1..];
      }
    }
  }

  /** After a rotation the epoch left has its recovery set and the epoch
      entered has its creation, whatever else happened meanwhile. */
  lemma RotatedSets(s: Storage, r: Resource, g: Record, g': Record)
    requires LedgerOk(s) && Typed(s.log) && SetsOk(s, r, g) && g.b.res == r
    requires GrantSucc(g, g') && g'.b.kind == Grant && g'.b.epoch != g.b.epoch && RotationBacked(s.log, g, g')
    ensures SetsOk(s, r, g')
  {
    var i: nat :| i < |s.log| && s.log[i].key == SetKey(r, g'.b.epoch) && s.log[i].value.Rec?
      && s.log[i].value.rec.b.kind == Creation && s.log[i].value.rec.b.setId == g'.b.setId;
    assert s.ledger[SetKey(r, g'.b.epoch)].etag == i;
    assert WroteAt(s.log, i, SetKey(r, g'.b.epoch), s.ledger[SetKey(r, g'.b.epoch)].value);
    var j: nat :| j < |s.log| && s.log[j].key == SetKey(r, g.b.epoch) && s.log[j].value.Rec?
      && s.log[j].value.rec.b.kind == RecoverySet;
    assert Admits(g, g.b.epoch);
    assert s.ledger[SetKey(r, g.b.epoch)].etag == j;
    assert WroteAt(s.log, j, SetKey(r, g.b.epoch), s.ledger[SetKey(r, g.b.epoch)].value);
    forall e: U32 | e <= g.b.epoch && Admits(g', e) ensures Admits(g, e) {
    }
  }

  /** What backs a creation, seen from the grant that stands now. */
  lemma CreationNow(s: Storage, r: Resource, e: U32, setId: Id, g: Record)
    requires LogOk(s.log) && LedgerOk(s) && CurrentGrant(s, r) == Some(g) && IsGrant(g)
    requires CreationBacked(s.log, r, e, setId)
    ensures g.b.epoch == e == 1 ==> g.b.setId == setId
  {
    var i: nat :| i < |s.log| && s.log[i].key == GrantKey(r) && s.log[i].value.Rec? && IsGrant(s.log[i].value.rec)
      && (|| (e == 1 && s.log[i].value.rec.b.epoch == 1 && s.log[i].value.rec.b.setId == setId)
          || s.log[i].value.rec.b.epoch + 1 == e);
    CurrentIsLatest(s, r, i);
  }

  lemma AdmittedBefore(a: Record, b: Record, e: U32)
    requires GrantLe(a, b) && IsGrant(a) && IsGrant(b) && Admits(a, e)
    ensures e <= b.b.epoch
  {
    assert e <= a.b.epoch;
  }

  /** An epoch once admitted is at most the one that stands now. */
  lemma AdmittedNow(s: Storage, r: Resource, e: U32, g: Record)
    requires LogOk(s.log) && LedgerOk(s) && CurrentGrant(s, r) == Some(g) && IsGrant(g)
    requires WasAdmitted(s.log, r, e)
    ensures e <= g.b.epoch
  {
    var i: nat :| i < |s.log| && s.log[i].key == GrantKey(r) && s.log[i].value.Rec?
      && IsGrant(s.log[i].value.rec) && Admits(s.log[i].value.rec, e);
    CurrentIsLatest(s, r, i);
    AdmittedBefore(s.log[i].value.rec, g, e);
  }

  /** An epoch once dead is not admitted by the grant that stands now. */
  lemma DeadNow(s: Storage, r: Resource, e: U32, g: Record)
    requires LogOk(s.log) && LedgerOk(s) && CurrentGrant(s, r) == Some(g) && g.b.kind == Grant
    requires Dead(s.log, r, e)
    ensures e < g.b.epoch && !Admits(g, e)
  {
    hide Chained, Typed, TrailBacked, RetainedOf, Admits;
    var i: nat :| i < |s.log| && s.log[i].key == GrantKey(r) && s.log[i].value.Rec?
      && (|| s.log[i].value.rec.b.kind == Erasure
          || (IsGrant(s.log[i].value.rec) && e < s.log[i].value.rec.b.epoch && !Admits(s.log[i].value.rec, e)));
    CurrentIsLatest(s, r, i);
  }

  /** A creation stored where nothing stands. */
  lemma CreatedSets(s: Storage, r: Resource, e: U32, v: Value, writer: Writer, g: Record)
    requires SetsOk(s, r, g) && SetKey(r, e) !in s.ledger && First(SetKey(r, e), v)
    requires g.b.epoch == e == 1 ==> g.b.setId == v.rec.b.setId
    ensures SetsOk(Store(s, SetKey(r, e), v, writer), r, g)
  {
    var t := Store(s, SetKey(r, e), v, writer);
    assert forall i: nat :: i < |s.log| ==> t.log[i] == s.log[i];
    assert forall x :: x != e ==> SetHeld(t, r, x) == SetHeld(s, r, x);
  }

  /** A creation replaced by the recorded set. */
  lemma RecordedSets(s: Storage, r: Resource, e: U32, v: Value, writer: Writer, g: Record)
    requires LedgerOk(s) && SetsOk(s, r, g) && IsGrant(g)
    requires SetKey(r, e) in s.ledger && Succ(SetKey(r, e), s.ledger[SetKey(r, e)].value, v)
    requires e <= g.b.epoch
    ensures SetsOk(Store(s, SetKey(r, e), v, writer), r, g)
  {
    RecordedStand(s, r, e, v, writer, g);
    RecordedStay(s, r, e, v, writer, g);
    assert forall i: nat :: i < |s.log| ==> Store(s, SetKey(r, e), v, writer).log[i] == s.log[i];
  }

  lemma RecordedStand(s: Storage, r: Resource, e: U32, v: Value, writer: Writer, g: Record)
    requires SetsStand(s, r, g) && SetKey(r, e) in s.ledger && Succ(SetKey(r, e), s.ledger[SetKey(r, e)].value, v)
    ensures SetsStand(Store(s, SetKey(r, e), v, writer), r, g)
  {
    var t := Store(s, SetKey(r, e), v, writer);
    assert forall x :: x != e ==> SetHeld(t, r, x) == SetHeld(s, r, x);
  }

  lemma RecordedStay(s: Storage, r: Resource, e: U32, v: Value, writer: Writer, g: Record)
    requires LedgerOk(s) && SetsStay(s, r, g)
    requires SetKey(r, e) in s.ledger && Succ(SetKey(r, e), s.ledger[SetKey(r, e)].value, v)
    ensures SetsStay(Store(s, SetKey(r, e), v, writer), r, g)
  {
    assert forall i: nat :: i < |s.log| ==> Store(s, SetKey(r, e), v, writer).log[i] == s.log[i];
    assert WroteAt(s.log, s.ledger[SetKey(r, e)].etag, SetKey(r, e), s.ledger[SetKey(r, e)].value);
  }

  /** A set deleted for an epoch no longer admitted. */
  lemma DeletedSets(s: Storage, who: Who, r: Resource, e: U32, etag: Etag, g: Record)
    requires SetsOk(s, r, g) && IsGrant(g) && e < g.b.epoch && !Admits(g, e)
    ensures SetsOk(Effect(s, who, Delete(SetKey(r, e), etag)), r, g)
  {
    var t := Effect(s, who, Delete(SetKey(r, e), etag));
    RetainedAreAdmitted(g);
    assert forall x :: x != e ==> SetHeld(t, r, x) == SetHeld(s, r, x);
  }

  lemma RetainedAreAdmitted(g: Record)
    requires IsGrant(g)
    ensures forall e :: e in Retained(g) ==> Admits(g, e)
  {
    forall e | e in Retained(g) ensures Admits(g, e) {
      var i :| 0 <= i < |Retained(g)| && Retained(g)[i] == e;
    }
  }
}
