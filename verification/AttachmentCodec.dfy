/** The attachment record on the wire: written field by field, read back by
    fixed offsets, and verified from its bytes. */
module AttachmentCodec {
  import opened Basics
  import opened WireBytes
  import opened AttachmentGrant

  const MAGIC: Bytes := [0x4B, 0x41, 0x54, 0x54]
  const VERSION: Byte := 1
  const FIXED_LEN := 208
  const MAX_ID := 64
  const MAX_SIGNATURE := 64
  const MAX_RECORD := FIXED_LEN + MAX_TENANTS * 16 + MAX_DOMAINS * 32 + 2 * (1 + MAX_ID) + 2 + 2 + MAX_SIGNATURE

  /** A record's digest as a number of thirty-two bytes; `hash` is SHA-256. */
  type Hash = Attachment -> nat

  // ── What can be written ────────────────────────────────────────────────

  function KindByte(k: Kind): Byte { match k case Publication => 1 case Grant => 2 case OtherKind => 0 }

  function KindOf(b: Byte): Kind { if b == 1 then Publication else if b == 2 then Grant else OtherKind }

  function ClassByte(c: Class): Byte {
    match c
    case Workload => 2
    case ServiceClass => 3
    case HostClass => 4
    case Operator => 5
    case OtherClass => 0
  }

  function ClassOf(b: Byte): Class {
    if b == 2 then Workload else if b == 3 then ServiceClass else if b == 4 then HostClass
    else if b == 5 then Operator else OtherClass
  }

  function DigestNumber(hash: Hash, d: Digest): nat {
    match d
    case NoDigest => 0
    case DigestOf(record) => hash(record)
    case Unread(n) => n
  }

  function DigestRead(n: nat): Digest { if n == 0 then NoDigest else Unread(n) }

  ghost predicate Narrow(ids: seq<Id>, size: nat) { forall id :: id in ids ==> id < Pow256(size) }

  /** One-byte fields within a byte, and no more set entries than there is
      room for. */
  predicate Sized(a: Attachment) {
    a.direction < 256 && a.disclosure < 256 && |a.tenants| <= MAX_TENANTS && |a.domains| <= MAX_DOMAINS
  }

  /** Each field within its width: bytes, identifiers of sixteen, domains and
      digests of thirty-two. */
  ghost predicate Wide(hash: Hash, a: Attachment) {
    && Sized(a) && a.kind != OtherKind && a.actorClass != OtherClass
    && Narrow([a.producerTenant, a.service, a.consumerTenant, a.attachmentId, a.actor], 16)
    && Narrow([a.actorDomain, DigestNumber(hash, a.publication)], 32)
    && Narrow(a.tenants, 16) && Narrow(a.domains, 32)
  }

  /** The record as it is read: its digest is then only a number. */
  function AsRead(hash: Hash, a: Attachment): Attachment {
    a.(publication := DigestRead(DigestNumber(hash, a.publication)))
  }

  // ── Writing ────────────────────────────────────────────────────────────

  function Flags(a: Attachment): Bytes
    requires Sized(a)
  {
    [VERSION, KindByte(a.kind), a.direction, a.disclosure, ClassByte(a.actorClass), |a.tenants|, |a.domains|, 0]
  }

  /** The fixed part, field by field. */
  function FixedParts(hash: Hash, a: Attachment): (ps: seq<Bytes>)
    requires Sized(a)
    ensures |ps| == 18
  {
    [MAGIC, Flags(a),
     Little(a.quotas.connections, 4), Little(a.quotas.bytesPerSec, 4), Little(a.quotas.flows, 4),
     Little(a.quotas.mirrorCredits, 4), Little(0, 4),
     Little(a.issuedMs, 8), Little(a.expiryMs, 8), Little(a.revocationGeneration, 8), Little(a.attachmentGeneration, 8),
     Little(a.producerTenant, 16), Little(a.service, 16), Little(a.consumerTenant, 16), Little(a.attachmentId, 16),
     Little(a.actor, 16), Little(a.actorDomain, 32), Little(DigestNumber(hash, a.publication), 32)]
  }

  function Fixed(hash: Hash, a: Attachment): Bytes
    requires Sized(a)
  {
    Concat(FixedParts(hash, a))
  }

  /** `Attachment::write`. */
  function Body(hash: Hash, a: Attachment): Bytes
    requires Sized(a)
  {
    Fixed(hash, a) + Row(a.tenants, 16) + Row(a.domains, 32)
  }

  datatype Signer = Signer(issuer: Bytes, kid: Bytes)

  predicate SignerOk(s: Signer) { 1 <= |s.issuer| <= MAX_ID && 1 <= |s.kid| <= MAX_ID }

  /** What is signed. */
  function Unsigned(hash: Hash, a: Attachment, signer: Signer, suite: nat): Bytes
    requires Sized(a)
    requires SignerOk(signer)
  {
    Body(hash, a) + Field8(signer.issuer) + Field8(signer.kid) + Little(suite, 2)
  }

  function Signed(hash: Hash, a: Attachment, signer: Signer, suite: nat, signature: Bytes): Bytes
    requires Sized(a)
    requires SignerOk(signer) && 1 <= |signature| <= MAX_SIGNATURE
  {
    Unsigned(hash, a, signer, suite) + Field16(signature)
  }

  /** `write_unsigned`: refused for the signer's lengths or for room. */
  method WriteUnsigned(hash: Hash, a: Attachment, signer: Signer, suite: nat, w: Writer) returns (ok: bool)
    requires w.Valid() && w.Written() == []
    requires Sized(a)
    modifies w`at, w.out
    ensures w.Valid()
    ensures ok <==> SignerOk(signer) && |Unsigned(hash, a, signer, suite)| <= w.out.Length
    ensures ok ==> w.Written() == Unsigned(hash, a, signer, suite)
  {
    hide Little, FixedParts, Concat, Row;
    if !SignerOk(signer) {
      return false;
    }
    ok := w.PutAll(FixedParts(hash, a));
    assert [] + Fixed(hash, a) == Fixed(hash, a);
    if ok { ok := w.Put(Row(a.tenants, 16)); }
    if ok { ok := w.Put(Row(a.domains, 32)); }
    if ok { ok := w.PutField8(signer.issuer); }
    if ok { ok := w.PutField8(signer.kid); }
    if ok { ok := w.Put(Little(suite, 2)); }
  }

  // ── Reading ────────────────────────────────────────────────────────────

  function U32At(b: Bytes, at: nat): U32
    requires at + 4 <= |b|
  {
    NumberFits(b[at..at + 4]);
    Widths();
    Number(b[at..at + 4])
  }

  function U64At(b: Bytes, at: nat): U64
    requires at + 8 <= |b|
  {
    NumberFits(b[at..at + 8]);
    Widths();
    Number(b[at..at + 8])
  }

  lemma Widths()
    ensures Pow256(2) == 0x1_0000 && Pow256(4) == U32_MAX + 1 && Pow256(8) == U64_MAX + 1
  {
    assert Pow256(0) == 1 && Pow256(1) == 0x100 && Pow256(2) == 0x1_0000 && Pow256(3) == 0x100_0000;
    assert Pow256(5) == 0x100_0000_0000 && Pow256(6) == 0x1_0000_0000_0000 && Pow256(7) == 0x100_0000_0000_0000;
  }

  function IdAt(b: Bytes, at: nat, size: nat): Id
    requires at + size <= |b|
  {
    Number(b[at..at + size])
  }

  /** What the fixed part says, without the sets. */
  function FixedOf(b: Bytes): Attachment
    requires |b| >= FIXED_LEN
  {
    Attachment(
      KindOf(b[5]), b[6], b[7], ClassOf(b[8]), Quotas(U32At(b, 12), U32At(b, 16), U32At(b, 20), U32At(b, 24)),
      U64At(b, 32), U64At(b, 40), U64At(b, 48), U64At(b, 56),
      IdAt(b, 64, 16), IdAt(b, 80, 16), IdAt(b, 96, 16), IdAt(b, 112, 16),
      IdAt(b, 128, 16), IdAt(b, 144, 32), DigestRead(IdAt(b, 176, 32)), [], [])
  }

  /** Magic, version, the reserved bytes and the counts. */
  predicate Framed(b: Bytes)
    requires |b| >= FIXED_LEN
  {
    && b[..4] == MAGIC && b[4] == VERSION && b[11] == 0 && U32At(b, 28) == 0
    && b[9] <= MAX_TENANTS && b[10] <= MAX_DOMAINS
  }

  /** `Attachment::read`: the record, and where its sets end. */
  function Read(b: Bytes): (r: Option<(Attachment, nat)>)
    ensures r.Some? ==> r.value.1 <= |b|
  {
    if |b| < FIXED_LEN || !Framed(b) then None
    else
      var mid: nat := FIXED_LEN + 16 * b[9] as nat;
      var end: nat := mid + 32 * b[10] as nat;
      if |b| < end then None
      else Some((FixedOf(b).(tenants := ReadRow(b[FIXED_LEN..mid], 16), domains := ReadRow(b[mid..end], 32)), end))
  }

  datatype Parsed = Parsed(a: Attachment, signer: Signer, suite: nat, signature: Bytes, signed: Bytes)

  /** `Record::parse`: structure only; trailing bytes are refused. */
  function Parse(b: Bytes): Result<Parsed, Refusal> {
    match Read(b)
    case None => Err(Malformed)
    case Some((a, end)) =>
      match ReadField8(b, end)
      case None => Err(Malformed)
      case Some((issuer, at)) => ParseSigner(b, a, issuer, at)
  }

  function ParseSigner(b: Bytes, a: Attachment, issuer: Bytes, at: nat): Result<Parsed, Refusal> {
    match ReadField8(b, at)
    case None => Err(Malformed)
    case Some((kid, from)) =>
      if !SignerOk(Signer(issuer, kid)) || from + 2 > |b| then Err(Malformed)
      else
        match ReadField16(b, from + 2)
        case None => Err(Malformed)
        case Some((signature, end)) =>
          if end != |b| || signature == [] || |signature| > MAX_SIGNATURE then Err(Malformed)
          else Ok(Parsed(a, Signer(issuer, kid), Number(b[from..from + 2]), signature, b[..from + 2]))
  }

  // ── Fields stand where they are read ───────────────────────────────────

  /** Offsets of the fixed part's fields. */
  lemma FieldOffsets(hash: Hash, a: Attachment)
    requires Wide(hash, a)
    ensures var ps := FixedParts(hash, a);
            && Offset(ps, 1) == 4 && Offset(ps, 2) == 12 && Offset(ps, 3) == 16 && Offset(ps, 4) == 20
            && Offset(ps, 5) == 24 && Offset(ps, 6) == 28 && Offset(ps, 7) == 32 && Offset(ps, 8) == 40
            && Offset(ps, 9) == 48 && Offset(ps, 10) == 56 && Offset(ps, 11) == 64 && Offset(ps, 12) == 80
            && Offset(ps, 13) == 96 && Offset(ps, 14) == 112 && Offset(ps, 15) == 128 && Offset(ps, 16) == 144
            && Offset(ps, 17) == 176 && |Fixed(hash, a)| == FIXED_LEN
  {
    hide Offset, Concat, Little;
    var ps := FixedParts(hash, a);
    assert Offset(ps, 0) == 0 by { OffsetZero(ps); }
    OffsetStep(ps, 0); OffsetStep(ps, 1); OffsetStep(ps, 2); OffsetStep(ps, 3); OffsetStep(ps, 4); OffsetStep(ps, 5);
    OffsetStep(ps, 6); OffsetStep(ps, 7); OffsetStep(ps, 8); OffsetStep(ps, 9); OffsetStep(ps, 10); OffsetStep(ps, 11);
    OffsetStep(ps, 12); OffsetStep(ps, 13); OffsetStep(ps, 14); OffsetStep(ps, 15); OffsetStep(ps, 16); OffsetStep(ps, 17);
    AllParts(ps);
  }

  lemma OffsetZero(ps: seq<Bytes>)
    ensures Offset(ps, 0) == 0
  {
  }

  /** A field of the fixed part, in any bytes that begin with it. */
  lemma FieldAt(hash: Hash, a: Attachment, k: nat, b: Bytes)
    requires Wide(hash, a) && k < 18 && Fixed(hash, a) <= b
    ensures var ps := FixedParts(hash, a);
            var at := Offset(ps, k);
            at + |ps[k]| <= |b| && b[at..at + |ps[k]|] == ps[k]
  {
    hide Offset, Concat, Little, FixedParts;
    var ps := FixedParts(hash, a);
    PartAt(ps, k);
    var at := Offset(ps, k);
    assert b[..|Fixed(hash, a)|] == Fixed(hash, a);
    assert b[at..at + |ps[k]|] == b[..|Fixed(hash, a)|][at..at + |ps[k]|];
  }

  lemma NumberAt(hash: Hash, a: Attachment, k: nat, n: nat, size: nat, b: Bytes)
    requires Wide(hash, a) && k < 18 && Fixed(hash, a) <= b
    requires FixedParts(hash, a)[k] == Little(n, size) && n < Pow256(size)
    ensures var at := Offset(FixedParts(hash, a), k); at + size <= |b| && Number(b[at..at + size]) == n
  {
    hide Offset, Concat, FixedParts;
    FieldAt(hash, a, k, b);
    LittleReads(n, size);
  }

  lemma FlagsRead(hash: Hash, a: Attachment, b: Bytes)
    requires Wide(hash, a) && Fixed(hash, a) <= b
    ensures |b| >= FIXED_LEN && Framed(b) && b[9] == |a.tenants| && b[10] == |a.domains|
    ensures KindOf(b[5]) == a.kind && b[6] == a.direction && b[7] == a.disclosure && ClassOf(b[8]) == a.actorClass
  {
    FieldOffsets(hash, a);
    FieldAt(hash, a, 0, b);
    FieldAt(hash, a, 1, b);
    assert 0 < Pow256(4);
    NumberAt(hash, a, 6, 0, 4, b);
    hide Offset, Concat, Little, Fixed, Wide;
    var f := Flags(a);
    assert FixedParts(hash, a)[0] == MAGIC && FixedParts(hash, a)[1] == f;
    hide FixedParts;
    assert b[4..12] == f;
    assert forall i :: 0 <= i < 8 ==> b[4 + i] == b[4..12][i];
    assert b[4] == f[0] && b[5] == f[1] && b[6] == f[2] && b[7] == f[3] && b[8] == f[4] && b[9] == f[5];
    assert b[10] == f[6] && b[11] == f[7];
  }

  lemma NumbersRead(hash: Hash, a: Attachment, b: Bytes)
    requires Wide(hash, a) && Fixed(hash, a) <= b && |b| >= FIXED_LEN
    ensures U32At(b, 12) == a.quotas.connections && U32At(b, 16) == a.quotas.bytesPerSec
    ensures U32At(b, 20) == a.quotas.flows && U32At(b, 24) == a.quotas.mirrorCredits
    ensures U64At(b, 32) == a.issuedMs && U64At(b, 40) == a.expiryMs
    ensures U64At(b, 48) == a.revocationGeneration && U64At(b, 56) == a.attachmentGeneration
  {
    Widths();
    FieldOffsets(hash, a);
    hide Wide, Fixed, Offset, Concat, Little, Number, Pow256;
    NumberAt(hash, a, 2, a.quotas.connections, 4, b);
    NumberAt(hash, a, 3, a.quotas.bytesPerSec, 4, b);
    NumberAt(hash, a, 4, a.quotas.flows, 4, b);
    NumberAt(hash, a, 5, a.quotas.mirrorCredits, 4, b);
    NumberAt(hash, a, 7, a.issuedMs, 8, b);
    NumberAt(hash, a, 8, a.expiryMs, 8, b);
    NumberAt(hash, a, 9, a.revocationGeneration, 8, b);
    NumberAt(hash, a, 10, a.attachmentGeneration, 8, b);
  }

  lemma WideIds(hash: Hash, a: Attachment)
    requires Wide(hash, a)
    ensures a.producerTenant < Pow256(16) && a.service < Pow256(16) && a.consumerTenant < Pow256(16)
    ensures a.attachmentId < Pow256(16) && a.actor < Pow256(16)
    ensures a.actorDomain < Pow256(32) && DigestNumber(hash, a.publication) < Pow256(32)
    ensures Narrow(a.tenants, 16) && Narrow(a.domains, 32)
  {
    hide Pow256, DigestNumber;
    var ids, wide := [a.producerTenant, a.service, a.consumerTenant, a.attachmentId, a.actor],
                     [a.actorDomain, DigestNumber(hash, a.publication)];
    assert ids[0] in ids && ids[1] in ids && ids[2] in ids && ids[3] in ids && ids[4] in ids;
    assert wide[0] in wide && wide[1] in wide;
  }

  lemma IdsRead(hash: Hash, a: Attachment, b: Bytes)
    requires Wide(hash, a) && Fixed(hash, a) <= b && |b| >= FIXED_LEN
    ensures IdAt(b, 64, 16) == a.producerTenant && IdAt(b, 80, 16) == a.service && IdAt(b, 96, 16) == a.consumerTenant
    ensures IdAt(b, 112, 16) == a.attachmentId && IdAt(b, 128, 16) == a.actor
  {
    FieldOffsets(hash, a);
    WideIds(hash, a);
    assert Sized(a);
    hide Wide, Narrow, Sized, Fixed, Offset, Concat, Little, Number, Pow256, DigestNumber;
    NumberAt(hash, a, 11, a.producerTenant, 16, b);
    NumberAt(hash, a, 12, a.service, 16, b);
    NumberAt(hash, a, 13, a.consumerTenant, 16, b);
    NumberAt(hash, a, 14, a.attachmentId, 16, b);
    NumberAt(hash, a, 15, a.actor, 16, b);
  }

  lemma DomainsRead(hash: Hash, a: Attachment, b: Bytes)
    requires Wide(hash, a) && Fixed(hash, a) <= b && |b| >= FIXED_LEN
    ensures IdAt(b, 144, 32) == a.actorDomain && IdAt(b, 176, 32) == DigestNumber(hash, a.publication)
  {
    FieldOffsets(hash, a);
    WideIds(hash, a);
    assert Sized(a);
    hide Wide, Narrow, Sized, Fixed, Offset, Concat, Little, Number, Pow256, DigestNumber;
    NumberAt(hash, a, 16, a.actorDomain, 32, b);
    NumberAt(hash, a, 17, DigestNumber(hash, a.publication), 32, b);
  }

  lemma FixedReads(hash: Hash, a: Attachment, b: Bytes)
    requires Wide(hash, a) && Fixed(hash, a) <= b
    ensures |b| >= FIXED_LEN && Framed(b) && b[9] == |a.tenants| && b[10] == |a.domains|
    ensures FixedOf(b) == AsRead(hash, a).(tenants := [], domains := [])
  {
    hide Wide, Fixed, U32At, U64At, IdAt, Framed, KindOf, ClassOf, DigestNumber, DigestRead;
    FlagsRead(hash, a, b);
    NumbersRead(hash, a, b);
    IdsRead(hash, a, b);
    DomainsRead(hash, a, b);
  }

  /** The body reads back, whatever follows it. */
  lemma BodyReads(hash: Hash, a: Attachment, tail: Bytes)
    requires Wide(hash, a)
    ensures Read(Body(hash, a) + tail) == Some((AsRead(hash, a), |Body(hash, a)|))
  {
    hide Fixed, FixedOf, Row, ReadRow, Framed, Wide, Read, AsRead;
    assert Sized(a) by { WideIsSized(hash, a); }
    hide Sized;
    var fixed, t, d := Fixed(hash, a), Row(a.tenants, 16), Row(a.domains, 32);
    PartsRead(hash, a);
    InTheMiddle(fixed, t, d, tail);
    FixedStands(hash, a, fixed + t + d + tail);
    Assembled(fixed + t + d + tail, AsRead(hash, a), t, d);
  }

  lemma WideIsSized(hash: Hash, a: Attachment)
    requires Wide(hash, a)
    ensures Sized(a)
  {
  }

  /** The parts of the body by themselves. */
  lemma PartsRead(hash: Hash, a: Attachment)
    requires Wide(hash, a)
    ensures |Fixed(hash, a)| == FIXED_LEN
    ensures |Row(a.tenants, 16)| == 16 * |a.tenants| && ReadRow(Row(a.tenants, 16), 16) == a.tenants
    ensures |Row(a.domains, 32)| == 32 * |a.domains| && ReadRow(Row(a.domains, 32), 32) == a.domains
  {
    WideIds(hash, a);
    RowReads(a.tenants, 16);
    RowReads(a.domains, 32);
    FieldOffsets(hash, a);
  }

  lemma FixedStands(hash: Hash, a: Attachment, b: Bytes)
    requires Wide(hash, a) && Fixed(hash, a) <= b
    ensures |b| >= FIXED_LEN && Framed(b) && b[9] == |AsRead(hash, a).tenants| && b[10] == |AsRead(hash, a).domains|
    ensures FixedOf(b) == AsRead(hash, a).(tenants := [], domains := [])
    ensures AsRead(hash, a).tenants == a.tenants && AsRead(hash, a).domains == a.domains
  {
    FixedReads(hash, a, b);
    hide Fixed, FixedOf, Framed, Wide;
    SetsStay(hash, a);
  }

  lemma SetsStay(hash: Hash, a: Attachment)
    ensures AsRead(hash, a).tenants == a.tenants && AsRead(hash, a).domains == a.domains
  {
  }

  lemma Assembled(b: Bytes, a: Attachment, t: Bytes, d: Bytes)
    requires |b| >= FIXED_LEN && Framed(b) && b[9] == |a.tenants| && b[10] == |a.domains|
    requires FixedOf(b) == a.(tenants := [], domains := [])
    requires |t| == 16 * |a.tenants| && |d| == 32 * |a.domains| && |b| >= FIXED_LEN + |t| + |d|
    requires b[FIXED_LEN..FIXED_LEN + |t|] == t && b[FIXED_LEN + |t|..FIXED_LEN + |t| + |d|] == d
    requires ReadRow(t, 16) == a.tenants && ReadRow(d, 32) == a.domains
    ensures Read(b) == Some((a, FIXED_LEN + |t| + |d|))
  {
    hide Framed, FixedOf, ReadRow;
  }

  lemma InTheMiddle(fixed: Bytes, t: Bytes, d: Bytes, tail: Bytes)
    ensures var b := fixed + t + d + tail;
            && fixed <= b && |b| >= |fixed| + |t| + |d|
            && b[|fixed|..|fixed| + |t|] == t && b[|fixed| + |t|..|fixed| + |t| + |d|] == d
  {
  }

  /** A record that was written and signed parses back: its fields, its signer
      and its signature, and as the bytes signed the ones that were. */
  lemma RecordParsesBack(hash: Hash, a: Attachment, signer: Signer, suite: nat, signature: Bytes)
    requires Wide(hash, a) && SignerOk(signer) && suite < 0x1_0000 && 1 <= |signature| <= MAX_SIGNATURE
    ensures Parse(Signed(hash, a, signer, suite, signature))
         == Ok(Parsed(AsRead(hash, a), signer, suite, signature, Unsigned(hash, a, signer, suite)))
  {
    hide Wide, Body, Little, Number, Read, Parse, Field8, Field16, ReadField8, ReadField16, AsRead, Pow256;
    assert Sized(a) by { WideIsSized(hash, a); }
    hide Sized;
    var body, s := Body(hash, a), Little(suite, 2);
    Tail(body, signer, s, signature);
    BodyReads(hash, a, Field8(signer.issuer) + Field8(signer.kid) + s + Field16(signature));
    SignerParses(Signed(hash, a, signer, suite, signature), AsRead(hash, a), |body|, signer, signature);
    SuiteReads(suite);
  }

  lemma SuiteReads(suite: nat)
    requires suite < 0x1_0000
    ensures Number(Little(suite, 2)) == suite
  {
    Widths();
    LittleReads(suite, 2);
  }

  /** What follows the body, read from where the body ends. */
  lemma Tail(body: Bytes, signer: Signer, s: Bytes, signature: Bytes)
    requires SignerOk(signer) && |s| == 2 && 1 <= |signature| <= MAX_SIGNATURE
    ensures var b := body + Field8(signer.issuer) + Field8(signer.kid) + s + Field16(signature);
            var i, k := |signer.issuer|, |signer.kid|;
            && b == body + (Field8(signer.issuer) + Field8(signer.kid) + s + Field16(signature))
            && ReadField8(b, |body|) == Some((signer.issuer, |body| + 1 + i))
            && ReadField8(b, |body| + 1 + i) == Some((signer.kid, |body| + 2 + i + k))
            && ReadField16(b, |body| + 4 + i + k) == Some((signature, |b|))
            && |body| + 4 + i + k <= |b|
            && b[|body| + 2 + i + k..|body| + 4 + i + k] == s
            && b[..|body| + 4 + i + k] == body + Field8(signer.issuer) + Field8(signer.kid) + s
  {
    hide Field8, Field16, ReadField8, ReadField16;
    var i, k, g := Field8(signer.issuer), Field8(signer.kid), Field16(signature);
    FieldLengths(signer.issuer, signature);
    FieldLengths(signer.kid, signature);
    var b := body + i + k + s + g;
    FirstOf(b, body, i, k, s, g, signer.issuer);
    SecondOf(b, body, i, k, s, g, signer.kid);
    LastOf(b, body, i, k, s, g, signature);
    Regrouped(body, i, k, s, g);
  }

  lemma FirstOf(b: Bytes, body: Bytes, i: Bytes, k: Bytes, s: Bytes, g: Bytes, x: Bytes)
    requires b == body + i + k + s + g && |x| <= 0xFF && i == Field8(x)
    ensures ReadField8(b, |body|) == Some((x, |body| + 1 + |x|))
  {
    hide Field8, ReadField8;
    assert b == body + i + (k + s + g);
    Field8Reads(body, x, k + s + g);
  }

  lemma SecondOf(b: Bytes, body: Bytes, i: Bytes, k: Bytes, s: Bytes, g: Bytes, x: Bytes)
    requires b == body + i + k + s + g && |x| <= 0xFF && k == Field8(x)
    ensures ReadField8(b, |body| + |i|) == Some((x, |body| + |i| + 1 + |x|))
  {
    hide Field8, ReadField8;
    assert b == (body + i) + k + (s + g);
    Field8Reads(body + i, x, s + g);
  }

  lemma LastOf(b: Bytes, body: Bytes, i: Bytes, k: Bytes, s: Bytes, g: Bytes, x: Bytes)
    requires b == body + i + k + s + g && |x| <= 0xFFFF && g == Field16(x)
    ensures ReadField16(b, |body| + |i| + |k| + |s|) == Some((x, |b|))
  {
    hide Field16, ReadField16;
    FieldLengths([], x);
    assert b == (body + i + k + s) + g + [];
    Field16Reads(body + i + k + s, x, []);
  }

  /** The parts after the body, each where the last one ends. */
  lemma SignerParses(b: Bytes, a: Attachment, at: nat, signer: Signer, signature: Bytes)
    requires SignerOk(signer) && 1 <= |signature| <= MAX_SIGNATURE && Read(b) == Some((a, at))
    requires ReadField8(b, at) == Some((signer.issuer, at + 1 + |signer.issuer|))
    requires ReadField8(b, at + 1 + |signer.issuer|) == Some((signer.kid, at + 2 + |signer.issuer| + |signer.kid|))
    requires ReadField16(b, at + 4 + |signer.issuer| + |signer.kid|) == Some((signature, |b|))
    ensures var from := at + 2 + |signer.issuer| + |signer.kid|;
            && from + 2 <= |b|
            && Parse(b) == Ok(Parsed(a, signer, Number(b[from..from + 2]), signature, b[..from + 2]))
  {
    hide Read, ReadField8, ReadField16, Number;
  }

  /** Five parts, the fourth picked out. */
  lemma Regrouped(a: Bytes, b: Bytes, c: Bytes, d: Bytes, e: Bytes)
    ensures var all := a + b + c + d + e;
            && all == a + (b + c + d + e)
            && all[|a| + |b| + |c|..|a| + |b| + |c| + |d|] == d && all[..|a| + |b| + |c| + |d|] == a + b + c + d
  {
  }

  lemma FieldLengths(x: Bytes, y: Bytes)
    requires |x| <= 0xFF && |y| <= 0xFFFF
    ensures |Field8(x)| == 1 + |x| && |Field16(y)| == 2 + |y|
  {
  }

  /** Every such record fits the largest a buffer is sized for, and the longest
      fills it. */
  lemma RecordFits(hash: Hash, a: Attachment, signer: Signer, suite: nat, signature: Bytes)
    requires Wide(hash, a) && SignerOk(signer) && 1 <= |signature| <= MAX_SIGNATURE
    ensures |Signed(hash, a, signer, suite, signature)|
         == FIXED_LEN + 16 * |a.tenants| + 32 * |a.domains| + 2 + |signer.issuer| + |signer.kid| + 2 + 2 + |signature|
    ensures |Signed(hash, a, signer, suite, signature)| <= MAX_RECORD
  {
    FieldOffsets(hash, a);
    WideIds(hash, a);
    RowReads(a.tenants, 16);
    RowReads(a.domains, 32);
    hide Fixed, Row, Little, Offset, Wide;
  }

  // ── Verifying ──────────────────────────────────────────────────────────

  /** The keys a verifier knows, by issuer and key id, each with its suite. */
  type Keys = map<Signer, (nat, Bytes)>

  /** What was signed: suite, key, message and signature. Only that verifies. */
  type Signatures = set<(nat, Bytes, Bytes, Bytes)>

  function SignatureOf(r: Parsed, keys: Keys, made: Signatures): Signature {
    if r.signer !in keys then NoSuchKey
    else if r.suite == keys[r.signer].0 && (r.suite, keys[r.signer].1, r.signed, r.signature) in made then Good
    else Bad
  }

  /** `Record::verify_as`, from the bytes. */
  function VerifyAs(b: Bytes, want: Kind, keys: Keys, made: Signatures, nowMs: U64): Result<Attachment, Refusal> {
    var r :- Parse(b);
    var ok := VerifyRecord(r.a, SignatureOf(r, keys, made), nowMs);
    :- ok;
    if r.a.kind == want then Ok(r.a) else Err(WrongKind)
  }

  /** A signed record verifies from its bytes as its fields alone decide. */
  lemma WrittenVerifies(hash: Hash, a: Attachment, signer: Signer, suite: nat, key: Bytes, signature: Bytes,
                        keys: Keys, made: Signatures, want: Kind, atMs: U64)
    requires Wide(hash, a) && SignerOk(signer) && suite < 0x1_0000 && 1 <= |signature| <= MAX_SIGNATURE
    requires signer in keys && keys[signer] == (suite, key)
    requires (suite, key, Unsigned(hash, a, signer, suite), signature) in made
    ensures VerifyAs(Signed(hash, a, signer, suite, signature), want, keys, made, atMs)
         == (match VerifyRecord(AsRead(hash, a), Good, atMs)
             case Refused(r) => Err(r)
             case Passed => if a.kind == want then Ok(AsRead(hash, a)) else Err(WrongKind))
  {
    assert Sized(a);
    hide Wide, Sized, Unsigned, Signed, Parse, VerifyRecord;
    RecordParsesBack(hash, a, signer, suite, signature);
  }

  /** What a decision may be asked to write. */
  ghost predicate GrantWide(hash: Hash, req: Request, p: Attachment, caller: Actor, id: Id) {
    && Narrow([req.consumerTenant, id, caller.id, p.producerTenant, p.service], 16) && Narrow([caller.domain, hash(p)], 32)
    && Narrow(p.tenants, 16) && Narrow(p.domains, 32) && |p.tenants| <= MAX_TENANTS && |p.domains| <= MAX_DOMAINS
  }

  lemma GrantIsWide(hash: Hash, req: Request, p: Attachment, caller: Actor, generation: U64, id: Id, nowMs: U64)
    requires DecideRequest(req, p, Some(caller), generation, id, nowMs).Ok? && GrantWide(hash, req, p, caller, id)
    ensures Wide(hash, DecideRequest(req, p, Some(caller), generation, id, nowMs).value.(publication := DigestOf(p)))
  {
    hide Pow256;
    var g := DecideRequest(req, p, Some(caller), generation, id, nowMs).value;
    var ids := [req.consumerTenant, id, caller.id, p.producerTenant, p.service];
    assert ids[0] in ids && ids[1] in ids && ids[2] in ids && ids[3] in ids && ids[4] in ids;
    var wide := [caller.domain, hash(p)];
    assert wide[0] in wide && wide[1] in wide;
  }

  /** A grant that was decided, written and signed parses back and verifies as
      a grant from five seconds before it was issued until it expires, and at
      no other time; it never verifies as a publication. */
  lemma GrantVerifiesFromBytes(hash: Hash, req: Request, p: Attachment, caller: Actor, generation: U64, id: Id, nowMs: U64,
                               signer: Signer, suite: nat, key: Bytes, signature: Bytes,
                               keys: Keys, made: Signatures, atMs: U64)
    requires DecideRequest(req, p, Some(caller), generation, id, nowMs).Ok? && GrantWide(hash, req, p, caller, id)
    requires SignerOk(signer) && suite < 0x1_0000 && 1 <= |signature| <= MAX_SIGNATURE
    requires signer in keys && keys[signer] == (suite, key)
    requires var g := DecideRequest(req, p, Some(caller), generation, id, nowMs).value.(publication := DigestOf(p));
             Wide(hash, g) ==> (suite, key, Unsigned(hash, g, signer, suite), signature) in made
    ensures var g := DecideRequest(req, p, Some(caller), generation, id, nowMs).value.(publication := DigestOf(p));
            && Wide(hash, g)
            && (VerifyAs(Signed(hash, g, signer, suite, signature), Grant, keys, made, atMs) == Ok(AsRead(hash, g))
                <==> 0 < atMs < g.expiryMs && nowMs <= atMs + SKEW_MS)
            && VerifyAs(Signed(hash, g, signer, suite, signature), Publication, keys, made, atMs).Err?
  {
    GrantIsWide(hash, req, p, caller, generation, id, nowMs);
    var g := DecideRequest(req, p, Some(caller), generation, id, nowMs).value.(publication := DigestOf(p));
    GrantVerifies(req, p, Some(caller), generation, id, nowMs, atMs);
    assert g.kind == Grant && Sized(g);
    hide Wide, Sized, DecideRequest, Unsigned, Signed, VerifyAs, VerifyRecord;
    WrittenVerifies(hash, g, signer, suite, key, signature, keys, made, Grant, atMs);
    WrittenVerifies(hash, g, signer, suite, key, signature, keys, made, Publication, atMs);
  }

  ghost predicate PublicationWide(a: Attachment) {
    && Narrow([a.producerTenant, a.service, a.actor], 16) && Narrow([a.actorDomain], 32)
    && Narrow(a.tenants, 16) && Narrow(a.domains, 32) && |a.tenants| <= MAX_TENANTS && |a.domains| <= MAX_DOMAINS
  }

  lemma PublicationIsWide(hash: Hash, req: Publish, actor: Option<Actor>, generation: U64, nowMs: U64, later: U64)
    requires DecidePublish(req, actor, generation, nowMs).Ok?
    requires PublicationWide(DecidePublish(req, actor, generation, nowMs).value)
    ensures var p := DecidePublish(req, actor, generation, nowMs).value.(revocationGeneration := later);
            Wide(hash, p) && AsRead(hash, p) == p && p.kind == Publication
  {
    hide Pow256;
    var p := DecidePublish(req, actor, generation, nowMs).value;
    var ids := [p.producerTenant, p.service, p.actor];
    assert ids[0] in ids && ids[1] in ids && ids[2] in ids;
    assert [p.actorDomain][0] in [p.actorDomain];
    PowPositive();
  }

  lemma PowPositive()
    ensures 0 < Pow256(16) && 0 < Pow256(32)
  {
  }

  /** So does a publication, by its own window, at whatever generation it was
      signed; and it comes back exactly as it was decided. */
  lemma PublicationVerifiesFromBytes(hash: Hash, req: Publish, actor: Option<Actor>, generation: U64, nowMs: U64, later: U64,
                                     signer: Signer, suite: nat, key: Bytes, signature: Bytes,
                                     keys: Keys, made: Signatures, atMs: U64)
    requires DecidePublish(req, actor, generation, nowMs).Ok?
    requires PublicationWide(DecidePublish(req, actor, generation, nowMs).value)
    requires SignerOk(signer) && suite < 0x1_0000 && 1 <= |signature| <= MAX_SIGNATURE
    requires signer in keys && keys[signer] == (suite, key)
    requires var p := DecidePublish(req, actor, generation, nowMs).value.(revocationGeneration := later);
             Wide(hash, p) ==> (suite, key, Unsigned(hash, p, signer, suite), signature) in made
    ensures var p := DecidePublish(req, actor, generation, nowMs).value.(revocationGeneration := later);
            && Wide(hash, p)
            && (VerifyAs(Signed(hash, p, signer, suite, signature), Publication, keys, made, atMs) == Ok(p)
                <==> 0 < atMs < p.expiryMs && nowMs <= atMs + SKEW_MS)
            && VerifyAs(Signed(hash, p, signer, suite, signature), Grant, keys, made, atMs).Err?
  {
    PublicationIsWide(hash, req, actor, generation, nowMs, later);
    var p := DecidePublish(req, actor, generation, nowMs).value.(revocationGeneration := later);
    PublicationVerifies(req, actor, generation, nowMs, later, atMs);
    hide DecidePublish;
    assert Sized(p) by { WideIsSized(hash, p); }
    hide Wide, Sized, Unsigned, Signed, VerifyAs, VerifyRecord, AsRead;
    WrittenVerifies(hash, p, signer, suite, key, signature, keys, made, Publication, atMs);
    WrittenVerifies(hash, p, signer, suite, key, signature, keys, made, Grant, atMs);
  }

  /** Nothing verifies whose bytes, all before the signature, were not signed. */
  lemma OnlySignedVerifies(b: Bytes, want: Kind, keys: Keys, made: Signatures, nowMs: U64)
    requires VerifyAs(b, want, keys, made, nowMs).Ok?
    ensures Parse(b).Ok? && Parse(b).value.signer in keys
    ensures var r := Parse(b).value;
            && (r.suite, keys[r.signer].1, r.signed, r.signature) in made
            && b == r.signed + Field16(r.signature)
  {
    hide Read, Number, Little;
    var r := Parse(b).value;
    SignedIsPrefix(b);
  }

  lemma SignedIsPrefix(b: Bytes)
    requires Parse(b).Ok?
    ensures 1 <= |Parse(b).value.signature| <= MAX_SIGNATURE
    ensures b == Parse(b).value.signed + Field16(Parse(b).value.signature)
  {
    hide Read, ReadField8, ReadField16, Field16, Number;
    var r := Parse(b).value;
    Field16Stands(b, |r.signed|);
  }
}
