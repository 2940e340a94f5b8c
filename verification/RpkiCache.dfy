/** The bounded cache of certificates and revocation lists by digest: full, the
    oldest gives way. */
module RpkiCache {
  import opened Basics

  const CACHE_SLOTS := 12
  const CACHE_ITEM_MAX := 4096

  type Bytes = seq<Byte>

  /** A slot is free while what it holds is empty. */
  datatype Slot = Slot(item: Bytes, digest: nat, age: U32) {
    predicate Used() { item != [] }
    predicate Holds(d: nat) { Used() && digest == d }
  }

  /** How long ago a slot was put, on a clock that wraps. */
  function Since(clock: U32, age: U32): U32 {
    if clock >= age then clock - age else clock + 0x1_0000_0000 - age
  }

  ghost predicate Holding(slots: seq<Slot>, d: nat) { exists i :: 0 <= i < |slots| && slots[i].Holds(d) }

  /** What a digest is held as. */
  ghost predicate HeldAs(slots: seq<Slot>, d: nat, item: Bytes) {
    exists i :: 0 <= i < |slots| && slots[i].Holds(d) && slots[i].item == item
  }

  /** A digest is held once. */
  ghost predicate HeldOnce(slots: seq<Slot>) {
    forall i, j :: 0 <= i < j < |slots| && slots[i].Used() && slots[j].Used() ==> slots[i].digest != slots[j].digest
  }

  /** Where a digest is put, it alone is held, unless what is put is empty. */
  lemma PutIsHeld(before: seq<Slot>, at: nat, put: Slot)
    requires at < |before| && HeldOnce(before) && (Holding(before, put.digest) ==> before[at].Holds(put.digest))
    ensures HeldOnce(before[at := put])
    ensures if put.item == [] then !Holding(before[at := put], put.digest)
            else HeldAs(before[at := put], put.digest, put.item)
  {
    var after := before[at := put];
    forall i | 0 <= i < |before| && i != at ensures !after[i].Holds(put.digest) { OnlyThere(before, at, i, put.digest); }
    if put.item != [] { assert after[at].Holds(put.digest) && after[at].item == put.item; }
  }

  lemma OnlyThere(before: seq<Slot>, at: nat, i: nat, d: nat)
    requires at < |before| && i < |before| && i != at && HeldOnce(before)
    requires Holding(before, d) ==> before[at].Holds(d)
    ensures !before[i].Holds(d)
  {
  }

  /** Other digests are held as before, but for the one whose slot was taken. */
  lemma OthersStay(before: seq<Slot>, at: nat, put: Slot, d: nat, x: Bytes)
    requires at < |before| && d != put.digest
    ensures HeldAs(before[at := put], d, x) ==> HeldAs(before, d, x)
    ensures HeldAs(before, d, x) && !HeldAs(before[at := put], d, x) ==> before[at].Holds(d)
  {
    var after := before[at := put];
    forall i | 0 <= i < |before| && i != at ensures after[i] == before[i] {}
    if i :| 0 <= i < |after| && after[i].Holds(d) && after[i].item == x { assert before[i] == after[i]; }
    if i :| 0 <= i < |before| && i != at && before[i].Holds(d) && before[i].item == x { assert after[i] == before[i]; }
  }

  class Cache {
    const slots: array<Slot>
    var clock: U32

    ghost predicate Valid()
      reads this, slots
    {
      slots.Length == CACHE_SLOTS && HeldOnce(slots[..])
    }

    constructor ()
      ensures Valid() && fresh(slots) && forall d :: !Holding(slots[..], d)
    {
      slots := new Slot[CACHE_SLOTS](_ => Slot([], 0, 0));
      clock := 0;
    }

    /** The slot a put takes: the digest's own, else a free one, else the one
        put longest ago. */
    method Choose(digest: nat) returns (at: nat)
      requires Valid()
      ensures at < slots.Length
      ensures Holding(slots[..], digest) ==> slots[at].Holds(digest)
      ensures !Holding(slots[..], digest) && slots[at].Used() ==>
                forall i :: 0 <= i < slots.Length ==> slots[i].Used() && Since(clock, slots[i].age) <= Since(clock, slots[at].age)
    {
      for i := 0 to slots.Length
        invariant forall j :: 0 <= j < i ==> !slots[j].Holds(digest)
      {
        if slots[i].Holds(digest) {
          return i;
        }
      }
      for i := 0 to slots.Length
        invariant forall j :: 0 <= j < i ==> slots[j].Used()
      {
        if !slots[i].Used() {
          return i;
        }
      }
      at := 0;
      for i := 0 to slots.Length
        invariant at < slots.Length && forall j :: 0 <= j < i ==> Since(clock, slots[j].age) <= Since(clock, slots[at].age)
      {
        if Since(clock, slots[at].age) <= Since(clock, slots[i].age) {
          at := i;
        }
      }
    }

    /** Hold `item` under `digest`. Nothing else is given up unless every slot
        is in use, and then the one put longest ago. */
    method Put(digest: nat, item: Bytes) returns (ok: bool)
      requires Valid()
      modifies this`clock, slots
      ensures ok == (|item| <= CACHE_ITEM_MAX)
      ensures !ok ==> slots[..] == old(slots[..])
      ensures Valid()
      ensures ok ==> if item == [] then !Holding(slots[..], digest) else HeldAs(slots[..], digest, item)
      ensures ok ==> forall d, x :: d != digest && HeldAs(slots[..], d, x) ==> HeldAs(old(slots[..]), d, x)
      ensures forall d, x :: d != digest && HeldAs(old(slots[..]), d, x) && !HeldAs(slots[..], d, x) ==>
                && !Holding(old(slots[..]), digest)
                && (forall i :: 0 <= i < slots.Length ==> old(slots[i]).Used())
                && exists k :: 0 <= k < slots.Length && old(slots[k]).Holds(d)
                     && forall i :: 0 <= i < slots.Length ==> Since(clock, old(slots[i]).age) <= Since(clock, old(slots[k]).age)
    {
      if |item| > CACHE_ITEM_MAX {
        return false;
      }
      clock := WrapInc(clock);
      ghost var before := slots[..];
      var at := Choose(digest);
      slots[at] := Slot(item, digest, clock);
      assert slots[..] == before[at := Slot(item, digest, clock)];
      PutIsHeld(before, at, Slot(item, digest, clock));
      forall d, x | d != digest { OthersStay(before, at, Slot(item, digest, clock), d, x); }
      return true;
    }

    /** The item held under `digest`. */
    method Get(digest: nat) returns (r: Option<Bytes>)
      requires Valid()
      ensures match r
              case Some(item) => HeldAs(slots[..], digest, item) && forall x :: HeldAs(slots[..], digest, x) ==> x == item
              case None => !Holding(slots[..], digest)
    {
      for i := 0 to slots.Length
        invariant forall j :: 0 <= j < i ==> !slots[j].Holds(digest)
      {
        if slots[i].Holds(digest) {
          assert slots[..][i].Holds(digest);
          return Some(slots[i].item);
        }
      }
      return None;
    }
  }
}
