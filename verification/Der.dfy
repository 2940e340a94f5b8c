/** DER as a certificate writer emits it: every length in its shortest form.
    And the reader the resource-certificate profile uses, which is another. */
module Der {
  import opened Basics

  type Bytes = seq<Byte>

  const MAX_LEN := 0xFFFF
  const CONSTRUCTED := 0x20

  datatype Tree =
    | Primitive(tag: Byte, contents: Bytes)
    | Constructed(tag: Byte, children: seq<Tree>)

  // ── Writing ────────────────────────────────────────────────────────────

  /** A length, in the short form or the shortest long one. */
  function Length(n: nat): (b: Bytes)
    requires n <= MAX_LEN
    ensures 1 <= |b| <= 3
  {
    if n < 0x80 then [n] else if n <= 0xFF then [0x81, n] else [0x82, n / 256, n % 256]
  }

  /** Whether every length of the tree is one the writer emits. */
  predicate Encodable(t: Tree) {
    && |Contents(t)| <= MAX_LEN
    && (t.Constructed? ==> AllEncodable(t.children))
  }

  predicate AllEncodable(ts: seq<Tree>) {
    forall i :: 0 <= i < |ts| ==> Encodable(ts[i])
  }

  /** What lies inside an element. A length over the limit is cut: such a
      tree is not encodable. */
  function Contents(t: Tree): Bytes
    decreases t, 0
  {
    match t
    case Primitive(_, c) => c
    case Constructed(_, ts) => EncodeAll(ts)
  }

  function Encode(t: Tree): Bytes
    decreases t, 1
  {
    var c := Contents(t);
    [t.tag] + (if |c| <= MAX_LEN then Length(|c|) else []) + c
  }

  function EncodeAll(ts: seq<Tree>): Bytes
    decreases ts
  {
    if ts == [] then [] else Encode(ts[0]) + EncodeAll(ts[1..])
  }

  // ── Reading ────────────────────────────────────────────────────────────

  datatype Tlv = Tlv(tag: Byte, body: Bytes, whole: Bytes)

  /** The big-endian number in some bytes. */
  function Big(b: Bytes): nat {
    if b == [] then 0 else 256 * Big(b[..|b| - 1]) + b[|b| - 1]
  }

  /** The length and header size at the front of an element. */
  function Header(b: Bytes): Option<(nat, nat)> {
    if |b| < 2 then None
    else if b[1] < 0x80 then Some((b[1], 2))
    else
      var n := b[1] % 0x80;
      if n == 0 || n > 3 || |b| < 2 + n then None else Some((Big(b[2..2 + n]), 2 + n))
  }

  /** `tlv`: the element in front, and the rest. */
  function ReadTlv(b: Bytes): (r: Option<(Tlv, Bytes)>)
    ensures r.Some? ==> r.value.0.whole + r.value.1 == b && |r.value.1| < |b| && |r.value.0.body| < |b|
  {
    match Header(b)
    case None => None
    case Some((len, hdr)) =>
      if hdr + len > |b| then None
      else Some((Tlv(b[0], b[hdr..hdr + len], b[..hdr + len]), b[hdr + len..]))
  }

  /** Elements one after the other, to the end. */
  function ReadAll(b: Bytes): Option<seq<Tlv>>
    decreases |b|
  {
    if b == [] then Some([])
    else
      match ReadTlv(b)
      case None => None
      case Some((t, rest)) =>
        match ReadAll(rest)
        case None => None
        case Some(ts) => Some([t] + ts)
  }

  predicate SaysConstructed(tag: Byte) { tag / CONSTRUCTED % 2 == 1 }

  /** A whole tree, its shape taken from the tags. */
  function Parse(t: Tlv): Option<Tree>
    decreases |t.body|, 1
  {
    if !SaysConstructed(t.tag) then Some(Primitive(t.tag, t.body))
    else
      match ParseAll(t.body)
      case None => None
      case Some(ts) => Some(Constructed(t.tag, ts))
  }

  function ParseAll(b: Bytes): Option<seq<Tree>>
    decreases |b|, 0
  {
    if b == [] then Some([])
    else
      match ReadTlv(b)
      case None => None
      case Some((t, rest)) =>
        match (Parse(t), ParseAll(rest))
        case (Some(x), Some(xs)) => Some([x] + xs)
        case _ => None
  }

  // ── What is written is read back ───────────────────────────────────────

  lemma BigOfLength(n: nat)
    requires n <= MAX_LEN
    ensures Big([n / 256, n % 256]) == n
    ensures n <= 0xFF ==> Big([n]) == n
  {
    BigOne(n / 256);
    assert [n / 256, n % 256][..1] == [n / 256];
    if n <= 0xFF { BigOne(n); }
  }

  lemma BigOne(x: Byte)
    ensures Big([x]) == x
  {
    assert [x][..0] == [];
  }

  /** A header reads as the length it was written for. */
  lemma HeaderReads(tag: Byte, n: nat, rest: Bytes)
    requires n <= MAX_LEN
    ensures Header([tag] + Length(n) + rest) == Some((n, 1 + |Length(n)|))
  {
    BigOfLength(n);
    var b := [tag] + Length(n) + rest;
    var len := Length(n);
    assert b[1] == len[0];
    if n > 0xFF {
      assert b[2..4] == [n / 256, n % 256];
    } else if n >= 0x80 {
      assert b[2..3] == [n];
    }
  }

  /** An element written by the writer is read with its tag, its contents and
      exactly its bytes, whatever follows. */
  lemma ElementReads(t: Tree, rest: Bytes)
    requires |Contents(t)| <= MAX_LEN
    ensures ReadTlv(Encode(t) + rest) == Some((Tlv(t.tag, Contents(t), Encode(t)), rest))
  {
    var c := Contents(t);
    var hdr := 1 + |Length(|c|)|;
    assert Encode(t) + rest == [t.tag] + Length(|c|) + (c + rest);
    HeaderReads(t.tag, |c|, c + rest);
    var b := Encode(t) + rest;
    assert b[hdr..hdr + |c|] == c && b[..hdr + |c|] == Encode(t) && b[hdr + |c|..] == rest;
  }

  lemma EncodeAllStep(ts: seq<Tree>)
    requires ts != []
    ensures EncodeAll(ts) == Encode(ts[0]) + EncodeAll(ts[1..]) && EncodeAll(ts) != []
  {
  }

  /** The elements inside a constructed one are read one by one. */
  lemma {:induction false} ChildrenRead(ts: seq<Tree>)
    requires AllEncodable(ts)
    ensures ReadAll(EncodeAll(ts)).Some?
    ensures var r := ReadAll(EncodeAll(ts)).value;
            |r| == |ts| && forall i :: 0 <= i < |ts| ==> r[i] == Tlv(ts[i].tag, Contents(ts[i]), Encode(ts[i]))
  {
    if ts != [] {
      EncodeAllStep(ts);
      assert Encodable(ts[0]);
      ElementReads(ts[0], EncodeAll(ts[1..]));
      assert AllEncodable(ts[1..]) by {
        assert forall i :: 0 <= i < |ts| - 1 ==> ts[1..][i] == ts[i + 1];
      }
      ChildrenRead(ts[1..]);
    }
  }

  /** The tags say which elements are constructed. */
  predicate Honest(t: Tree) {
    && (t.Constructed? <==> SaysConstructed(t.tag))
    && (t.Constructed? ==> forall i :: 0 <= i < |t.children| ==> Honest(t.children[i]))
  }

  /** A tree the writer can emit is read back whole. */
  lemma {:induction false} TreeReadsBack(t: Tree)
    requires Encodable(t) && Honest(t)
    ensures Parse(Tlv(t.tag, Contents(t), Encode(t))) == Some(t)
    decreases t, 0
  {
    if t.Constructed? { TreesReadBack(t.children); }
  }

  lemma {:induction false} TreesReadBack(ts: seq<Tree>)
    requires AllEncodable(ts) && forall i :: 0 <= i < |ts| ==> Honest(ts[i])
    ensures ParseAll(EncodeAll(ts)) == Some(ts)
    decreases ts
  {
    if ts != [] {
      EncodeAllStep(ts);
      assert Encodable(ts[0]);
      ElementReads(ts[0], EncodeAll(ts[1..]));
      assert forall i :: 0 <= i < |ts| - 1 ==> ts[1..][i] == ts[i + 1];
      TreeReadsBack(ts[0]);
      TreesReadBack(ts[1..]);
      assert [ts[0]] + ts[1..] == ts;
    }
  }

  /** So no two trees share an encoding. */
  lemma EncodingIsUnique(t: Tree, u: Tree)
    requires Encodable(t) && Encodable(u) && Honest(t) && Honest(u) && Encode(t) == Encode(u)
    ensures t == u
  {
    assert Encode(t) + [] == Encode(t) && Encode(u) + [] == Encode(u);
    ElementReads(t, []);
    ElementReads(u, []);
    TreeReadsBack(t);
    TreeReadsBack(u);
  }

  /** Lengths are minimal: no shorter header gives the same length. */
  lemma LengthIsMinimal(b: Bytes, n: nat, size: nat)
    requires Header(b) == Some((n, size)) && n <= MAX_LEN
    ensures 1 + |Length(n)| <= size
  {
    if b[1] >= 0x80 {
      var k := b[1] % 0x80;
      BigBound(b[2..2 + k]);
    }
  }

  lemma {:induction false} BigBound(b: Bytes)
    ensures |b| == 1 ==> Big(b) < 256
  {
    if |b| == 1 { assert b[..0] == []; }
  }

  // ── Integers and bit strings ───────────────────────────────────────────

  const TAG_INTEGER := 0x02
  const TAG_BIT_STRING := 0x03

  function Trimmed(value: Bytes): (t: Bytes)
    ensures value != [] ==> t != [] && Big(t) == Big(value) && (|t| > 1 ==> t[0] != 0) && |t| <= |value|
  {
    if |value| > 1 && value[0] == 0 then
      DropZero(value);
      Trimmed(value[1..])
    else value
  }

  lemma {:induction false} DropZero(value: Bytes)
    requires |value| > 1 && value[0] == 0
    ensures Big(value[1..]) == Big(value)
  {
    var n := |value| - 1;
    assert value[1..][..n - 1] == value[..n][1..];
    if n > 1 {
      DropZero(value[..n]);
    } else {
      assert value[..1] == [0] && [0][..0] == [] && Big([0]) == 0;
    }
  }

  /** A non-negative INTEGER: no needless zero in front, and one where the
      top bit would make it negative. */
  function IntegerTree(value: Bytes): Tree
    requires value != []
  {
    var t := Trimmed(value);
    Primitive(TAG_INTEGER, if t[0] >= 0x80 then [0] + t else t)
  }

  function BitStringTree(contents: Bytes): Tree {
    Primitive(TAG_BIT_STRING, [0] + contents)
  }

  const TWO_64 := 0x1_0000_0000_0000_0000
  const TWO_56 := 0x100_0000_0000_0000

  /** `der_uint`: bits shifted past the sixty-fourth are lost. */
  function ReadUint(t: Tlv): Option<nat> {
    if t.tag != TAG_INTEGER || t.body == [] || |t.body| > 9 || t.body[0] >= 0x80 then None
    else Some(Big(t.body) % TWO_64)
  }

  lemma {:induction false} BigLess(b: Bytes)
    ensures Big(b) < Pow256(|b|)
  {
    if b != [] { BigLess(b[..|b| - 1]); }
  }

  lemma ZeroInFront(t: Bytes)
    ensures Big([0] + t) == Big(t)
  {
    if t == [] {
      assert [0] + t == [0] && [0][..0] == [];
    } else {
      assert ([0] + t)[1..] == t;
      DropZero([0] + t);
    }
  }

  /** An integer of up to eight bytes reads back as its value. */
  lemma IntegerReads(value: Bytes)
    requires 1 <= |value| <= 8
    ensures ReadUint(Tlv(TAG_INTEGER, IntegerTree(value).contents, Encode(IntegerTree(value)))) == Some(Big(value))
  {
    var t := Trimmed(value);
    ZeroInFront(t);
    BigLess(t);
    PowUpTo8(|t|);
    FitsUint(IntegerTree(value), Big(value), Encode(IntegerTree(value)));
  }

  lemma FitsUint(t: Tree, n: nat, whole: Bytes)
    requires t.Primitive? && t.tag == TAG_INTEGER && Big(t.contents) == n < 0x1_0000_0000_0000_0000
    requires 1 <= |t.contents| <= 9 && t.contents[0] < 0x80
    ensures ReadUint(Tlv(TAG_INTEGER, t.contents, whole)) == Some(n)
  {
  }

  lemma PowUpTo8(n: nat)
    requires n <= 8
    ensures Pow256(n) <= Pow256(8) == TWO_64
  {
    assert Pow256(0) == 1 && Pow256(1) == 0x100 && Pow256(2) == 0x1_0000 && Pow256(3) == 0x100_0000;
    assert Pow256(4) == 0x1_0000_0000 && Pow256(5) == 0x100_0000_0000 && Pow256(6) == 0x1_0000_0000_0000;
    assert Pow256(7) == 0x100_0000_0000_0000 && Pow256(8) == 0x1_0000_0000_0000_0000;
  }

  /** The first byte's share of a number. */
  lemma {:induction false} BigSplits(b: Bytes)
    requires b != []
    ensures Big(b) == b[0] * Pow256(|b| - 1) + Big(b[1..])
  {
    var n := |b| - 1;
    if n > 0 {
      BigSplits(b[..n]);
      assert b[..n][1..] == b[1..][..n - 1];
      Distribute(b[0], Pow256(n - 1), Big(b[..n][1..]));
    } else {
      assert b[..0] == [] && b[1..] == [];
    }
  }

  lemma Distribute(x: nat, p: nat, y: nat)
    ensures 256 * (x * p + y) == x * (256 * p) + 256 * y
  {
  }

  /** Nine bytes are accepted whatever the first: the value read is the one
      written if and only if there are no more than eight or the first is 0. */
  lemma NineByteIntegers(t: Tlv)
    requires ReadUint(t).Some?
    ensures ReadUint(t).value == Big(t.body) <==> |t.body| <= 8 || t.body[0] == 0
  {
    PowUpTo8(8);
    if |t.body| <= 8 {
      BigLess(t.body);
      PowUpTo8(|t.body|);
    } else {
      BigSplits(t.body);
      BigLess(t.body[1..]);
    }
  }

  /** One byte shifted in: what is shifted out is what the remainder drops. */
  lemma ShiftIn(n: nat, v: nat, b: Byte)
    requires v == n % TWO_64
    ensures v * 256 % TWO_64 + b == (n * 256 + b) % TWO_64
  {
    var q, top, low := n / TWO_64, v / TWO_56, v % TWO_56;
    Quotient(v * 256, TWO_64, top, low * 256);
    Quotient(n * 256 + b, TWO_64, q * 256 + top, low * 256 + b);
  }

  /** `der_uint`. */
  method DerUint(t: Tlv) returns (r: Option<nat>)
    ensures r == ReadUint(t)
  {
    if t.tag != TAG_INTEGER || t.body == [] || |t.body| > 9 || t.body[0] >= 0x80 {
      return None;
    }
    var v := 0;
    for i := 0 to |t.body|
      invariant v == Big(t.body[..i]) % TWO_64
    {
      assert t.body[..i + 1][..i] == t.body[..i];
      ShiftIn(Big(t.body[..i]), v, t.body[i]);
      v := v * 256 % TWO_64 + t.body[i];
    }
    assert t.body[..|t.body|] == t.body;
    return Some(v);
  }

  /** A version of 2^64 reads as 0. */
  lemma NineByteVersionReadsZero()
    ensures ReadUint(Tlv(TAG_INTEGER, [1, 0, 0, 0, 0, 0, 0, 0, 0], [])) == Some(0)
  {
    assert Big([1]) == 1 by { assert [1][..0] == []; }
    assert [1, 0][..1] == [1] && [1, 0, 0][..2] == [1, 0] && [1, 0, 0, 0][..3] == [1, 0, 0];
    assert [1, 0, 0, 0, 0][..4] == [1, 0, 0, 0] && [1, 0, 0, 0, 0, 0][..5] == [1, 0, 0, 0, 0];
    assert [1, 0, 0, 0, 0, 0, 0][..6] == [1, 0, 0, 0, 0, 0];
    assert [1, 0, 0, 0, 0, 0, 0, 0][..7] == [1, 0, 0, 0, 0, 0, 0];
    assert [1, 0, 0, 0, 0, 0, 0, 0, 0][..8] == [1, 0, 0, 0, 0, 0, 0, 0];
    assert Big([1, 0, 0, 0, 0]) == 0x1_0000_0000;
  }
}
