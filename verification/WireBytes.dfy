/** The bounded writer and reader records share: numbers in little-endian
    bytes, and fields behind their length in one or two bytes. */
module WireBytes {
  import opened Basics

  type Bytes = seq<Byte>

  // ── Numbers ────────────────────────────────────────────────────────────

  function Little(n: nat, size: nat): (b: Bytes)
    ensures |b| == size
  {
    if size == 0 then [] else [n % 256] + Little(n / 256, size - 1)
  }

  function Number(b: Bytes): nat {
    if b == [] then 0 else b[0] + 256 * Number(b[1..])
  }

  lemma {:induction false} LittleReads(n: nat, size: nat)
    requires n < Pow256(size)
    ensures Number(Little(n, size)) == n
  {
    if size > 0 {
      LittleReads(n / 256, size - 1);
      assert Little(n, size)[1..] == Little(n / 256, size - 1);
    }
  }

  lemma {:induction false} NumberFits(b: Bytes)
    ensures Number(b) < Pow256(|b|)
  {
    if b != [] { NumberFits(b[1..]); }
  }

  lemma {:induction false} LittleOfNumber(b: Bytes)
    ensures Little(Number(b), |b|) == b
  {
    if b != [] {
      var q := Number(b[1..]);
      Quotient(Number(b), 256, q, b[0]);
      LittleOfNumber(b[1..]);
      assert b == [b[0]] + b[1..];
    }
  }

  // ── Fields ─────────────────────────────────────────────────────────────

  function Field8(b: Bytes): Bytes
    requires |b| <= 0xFF
  {
    [|b|] + b
  }

  function Field16(b: Bytes): Bytes
    requires |b| <= 0xFFFF
  {
    Little(|b|, 2) + b
  }

  /** What stands between two places. */
  function Slice(b: Bytes, from: nat, n: nat): Option<Bytes> {
    if from + n <= |b| then Some(b[from..from + n]) else None
  }

  /** `f8`: the field at `at`, and where it ends. */
  function ReadField8(b: Bytes, at: nat): (r: Option<(Bytes, nat)>)
    ensures r.Some? ==> r.value.1 == at + 1 + |r.value.0| <= |b|
  {
    if at >= |b| || at + 1 + b[at] > |b| then None else Some((b[at + 1..at + 1 + b[at]], at + 1 + b[at]))
  }

  /** `f16`. */
  function ReadField16(b: Bytes, at: nat): (r: Option<(Bytes, nat)>)
    ensures r.Some? ==> r.value.1 == at + 2 + |r.value.0| <= |b|
  {
    if at + 2 > |b| then None
    else
      var n := Number(b[at..at + 2]);
      if at + 2 + n > |b| then None else Some((b[at + 2..at + 2 + n], at + 2 + n))
  }

  lemma Field8Reads(front: Bytes, x: Bytes, rest: Bytes)
    requires |x| <= 0xFF
    ensures ReadField8(front + Field8(x) + rest, |front|) == Some((x, |front| + 1 + |x|))
  {
    var b := front + Field8(x) + rest;
    assert b[|front|] == |x|;
    assert b[|front| + 1..|front| + 1 + |x|] == x;
  }

  lemma Field16Reads(front: Bytes, x: Bytes, rest: Bytes)
    requires |x| <= 0xFFFF
    ensures ReadField16(front + Field16(x) + rest, |front|) == Some((x, |front| + 2 + |x|))
  {
    hide Little, Number;
    var b := front + Field16(x) + rest;
    assert b[|front|..|front| + 2] == Little(|x|, 2);
    TwoBytes();
    LittleReads(|x|, 2);
    assert b[|front| + 2..|front| + 2 + |x|] == x;
  }

  /** A field that was read is what a field would be written as. */
  lemma Field16Stands(b: Bytes, at: nat)
    requires ReadField16(b, at).Some? && ReadField16(b, at).value.1 == |b|
    ensures var x := ReadField16(b, at).value.0; |x| <= 0xFFFF && b == b[..at] + Field16(x)
  {
    var x := ReadField16(b, at).value.0;
    NumberFits(b[at..at + 2]);
    TwoBytes();
    LittleOfNumber(b[at..at + 2]);
    assert b == b[..at] + (b[at..at + 2] + b[at + 2..]);
  }

  lemma TwoBytes()
    ensures Pow256(2) == 0x1_0000
  {
    assert Pow256(0) == 1 && Pow256(1) == 256;
  }

  // ── Parts in a row ─────────────────────────────────────────────────────

  function Concat(parts: seq<Bytes>): Bytes {
    if parts == [] then [] else parts[0] + Concat(parts[1..])
  }

  /** Where a part begins. */
  function Offset(parts: seq<Bytes>, k: nat): nat
    requires k <= |parts|
  {
    if k == 0 then 0 else |parts[0]| + Offset(parts[1..], k - 1)
  }

  lemma {:induction false} OffsetStep(parts: seq<Bytes>, k: nat)
    requires k < |parts|
    ensures Offset(parts, k + 1) == Offset(parts, k) + |parts[k]|
  {
    if k > 0 { OffsetStep(parts[1..], k - 1); }
  }

  lemma {:induction false} PartAt(parts: seq<Bytes>, k: nat)
    requires k < |parts|
    ensures Offset(parts, k) + |parts[k]| <= |Concat(parts)|
    ensures Concat(parts)[Offset(parts, k)..Offset(parts, k) + |parts[k]|] == parts[k]
  {
    var rest := Concat(parts[1..]);
    if k > 0 {
      PartAt(parts[1..], k - 1);
      var from := Offset(parts[1..], k - 1);
      assert Concat(parts)[|parts[0]| + from..|parts[0]| + from + |parts[k]|] == rest[from..from + |parts[k]|];
    } else {
      assert Concat(parts)[..|parts[0]|] == parts[0];
    }
  }

  lemma {:induction false} AllParts(parts: seq<Bytes>)
    ensures |Concat(parts)| == Offset(parts, |parts|)
  {
    if parts != [] { AllParts(parts[1..]); }
  }

  lemma {:induction false} ConcatAppends(a: seq<Bytes>, b: seq<Bytes>)
    ensures Concat(a + b) == Concat(a) + Concat(b)
  {
    if a == [] {
      assert a + b == b;
    } else {
      assert (a + b)[1..] == a[1..] + b;
      ConcatAppends(a[1..], b);
    }
  }

  // ── Identifiers in a row ───────────────────────────────────────────────

  /** Numbers of one width. */
  function Row(ids: seq<nat>, size: nat): Bytes {
    if ids == [] then [] else Little(ids[0], size) + Row(ids[1..], size)
  }

  function ReadRow(b: Bytes, size: nat): seq<nat>
    requires size > 0
    decreases |b|
  {
    if |b| < size then [] else [Number(b[..size])] + ReadRow(b[size..], size)
  }

  lemma {:induction false} RowReads(ids: seq<nat>, size: nat)
    requires size > 0 && forall id :: id in ids ==> id < Pow256(size)
    ensures ReadRow(Row(ids, size), size) == ids && |Row(ids, size)| == |ids| * size
  {
    RowLength(ids, size);
    hide Number, Little, Pow256;
    if ids != [] {
      assert ids[0] in ids;
      LittleReads(ids[0], size);
      forall id | id in ids[1..] ensures id < Pow256(size) { assert id in ids; }
      RowReads(ids[1..], size);
      FirstInRow(ids, size);
      assert ids == [ids[0]] + ids[1..];
    }
  }

  lemma FirstInRow(ids: seq<nat>, size: nat)
    requires ids != [] && size > 0
    ensures var b := Row(ids, size);
            |b| >= size && b[..size] == Little(ids[0], size) && b[size..] == Row(ids[1..], size)
  {
    hide Little;
  }

  lemma {:induction false} RowLength(ids: seq<nat>, size: nat)
    ensures |Row(ids, size)| == |ids| * size
  {
    hide Little;
    if ids != [] {
      RowLength(ids[1..], size);
      OneMore(|ids| - 1, size);
    }
  }

  lemma OneMore(n: nat, size: nat)
    ensures (n + 1) * size == n * size + size
  {
  }

  // ── The writer ─────────────────────────────────────────────────────────

  class Writer {
    const out: array<Byte>
    var at: nat

    ghost predicate Valid()
      reads this, out
    {
      at <= out.Length
    }

    ghost function Written(): Bytes
      reads this, out
      requires Valid()
    {
      out[..at]
    }

    constructor (out: array<Byte>)
      ensures Valid() && this.out == out && Written() == []
    {
      this.out := out;
      at := 0;
    }

    /** `bytes`. */
    method Put(b: Bytes) returns (ok: bool)
      requires Valid()
      modifies this`at, out
      ensures Valid() && ok == (old(at) + |b| <= out.Length)
      ensures Written() == if ok then old(Written()) + b else old(Written())
    {
      if at + |b| > out.Length {
        return false;
      }
      for i := 0 to |b|
        invariant at == old(at) && forall k :: at <= k < at + i ==> out[k] == b[k - at]
        invariant forall k :: 0 <= k < at ==> out[k] == old(out[k])
      {
        out[at + i] := b[i];
      }
      at := at + |b|;
      return true;
    }

    method PutField8(b: Bytes) returns (ok: bool)
      requires Valid()
      modifies this`at, out
      ensures Valid() && ok == (|b| <= 0xFF && old(at) + 1 + |b| <= out.Length)
      ensures ok ==> Written() == old(Written()) + Field8(b)
    {
      if |b| > 0xFF {
        return false;
      }
      ghost var before := Written();
      ok := Put([|b|]);
      if ok {
        ok := Put(b);
        assert before + [|b|] + b == before + ([|b|] + b);
      }
    }

    method PutField16(b: Bytes) returns (ok: bool)
      requires Valid()
      modifies this`at, out
      ensures Valid() && ok == (|b| <= 0xFFFF && old(at) + 2 + |b| <= out.Length)
      ensures ok ==> Written() == old(Written()) + Field16(b)
    {
      hide Little;
      if |b| > 0xFFFF {
        return false;
      }
      ghost var before := Written();
      ok := Put(Little(|b|, 2));
      if ok {
        ok := Put(b);
        assert before + Little(|b|, 2) + b == before + (Little(|b|, 2) + b);
      }
    }

    /** Fields of a fixed width, one after the other. */
    method PutAll(parts: seq<Bytes>) returns (ok: bool)
      requires Valid()
      modifies this`at, out
      ensures Valid() && ok == (old(at) + |Concat(parts)| <= out.Length)
      ensures ok ==> Written() == old(Written()) + Concat(parts)
    {
      ghost var before := Written();
      assert parts[..0] == [] && before + [] == before;
      for i := 0 to |parts|
        invariant Valid() && Written() == before + Concat(parts[..i])
      {
        PartsSplit(parts, i);
        assert before + (Concat(parts[..i]) + parts[i]) == before + Concat(parts[..i]) + parts[i];
        var one := Put(parts[i]);
        if !one {
          return false;
        }
      }
      assert parts[..|parts|] == parts;
      return true;
    }
  }

  lemma PartsSplit(parts: seq<Bytes>, i: nat)
    requires i < |parts|
    ensures Concat(parts[..i + 1]) == Concat(parts[..i]) + parts[i]
    ensures |Concat(parts)| >= |Concat(parts[..i])| + |parts[i]|
  {
    assert parts[..i + 1] == parts[..i] + [parts[i]];
    ConcatAppends(parts[..i], [parts[i]]);
    assert parts == parts[..i + 1] + parts[i + 1..];
    ConcatAppends(parts[..i + 1], parts[i + 1..]);
  }
}
