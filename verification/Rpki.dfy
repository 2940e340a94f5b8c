/** RFC 3779 resources along a chain of RPKI certificates: prefixes as address
    sets, narrowing from issuer to issuer, revocation by every list handed in. */
module Rpki {
  import opened Basics

  const RESOURCES_MAX := 16
  const CHAIN_MAX := 4
  const CRL_ENTRIES_MAX := 512

  datatype Refusal =
    | Malformed | Algorithm | Shape | AnchorSignature | IssuerSignature | NotCa | Expired
    | BadResources | NoCrl | StaleCrl | Revoked | Chain | Attributes | SignerSignature

  // ── Prefixes ───────────────────────────────────────────────────────────

  type Octets = seq<bv8>

  /** Bit `k` of an octet, from the left. */
  predicate BitOf(b: bv8, k: nat)
    requires k < 8
  {
    match k
    case 0 => b & 0x80 != 0
    case 1 => b & 0x40 != 0
    case 2 => b & 0x20 != 0
    case 3 => b & 0x10 != 0
    case 4 => b & 0x08 != 0
    case 5 => b & 0x04 != 0
    case 6 => b & 0x02 != 0
    case 7 => b & 0x01 != 0
  }

  predicate BitAt(a: Octets, k: nat)
    requires k < 8 * |a|
  {
    BitOf(a[k / 8], k % 8)
  }

  /** `0xFF << (8 - rem)`. */
  function Mask(rem: nat): bv8
    requires rem < 8
  {
    match rem
    case 0 => 0x00
    case 1 => 0x80
    case 2 => 0xC0
    case 3 => 0xE0
    case 4 => 0xF0
    case 5 => 0xF8
    case 6 => 0xFC
    case 7 => 0xFE
  }

  datatype Prefix = Prefix(family: nat, addr: Octets, len: nat) {
    predicate Valid() {
      |addr| == 16 && (family == 4 || family == 6) && len <= if family == 4 then 32 else 128
    }

    /** Whether `other` lies inside this prefix. */
    predicate Covers(other: Prefix)
      requires Valid() && other.Valid()
    {
      && family == other.family && other.len >= len
      && var full := len / 8;
         && addr[..full] == other.addr[..full]
         && (len % 8 == 0 || addr[full] & Mask(len % 8) == other.addr[full] & Mask(len % 8))
    }

    /** The addresses of the prefix: those that begin with its bits. */
    ghost predicate Has(a: Octets)
      requires Valid()
    {
      |a| == 16 && forall k: nat :: k < len ==> BitAt(a, k) == BitAt(addr, k)
    }
  }

  lemma MaskIsBits(x: bv8, y: bv8, rem: nat)
    requires rem < 8
    ensures x & Mask(rem) == y & Mask(rem) <==> forall k :: 0 <= k < rem ==> BitOf(x, k) == BitOf(y, k)
  {
    assert rem > 0 ==> (BitOf(x, 0) == BitOf(y, 0)) == (x & 0x80 == y & 0x80);
    assert rem > 1 ==> (BitOf(x, 1) == BitOf(y, 1)) == (x & 0x40 == y & 0x40);
    assert rem > 2 ==> (BitOf(x, 2) == BitOf(y, 2)) == (x & 0x20 == y & 0x20);
    assert rem > 3 ==> (BitOf(x, 3) == BitOf(y, 3)) == (x & 0x10 == y & 0x10);
    assert rem > 4 ==> (BitOf(x, 4) == BitOf(y, 4)) == (x & 0x08 == y & 0x08);
    assert rem > 5 ==> (BitOf(x, 5) == BitOf(y, 5)) == (x & 0x04 == y & 0x04);
    assert rem > 6 ==> (BitOf(x, 6) == BitOf(y, 6)) == (x & 0x02 == y & 0x02);
  }

  lemma OctetIsBits(x: bv8, y: bv8)
    ensures x == y <==> forall k :: 0 <= k < 8 ==> BitOf(x, k) == BitOf(y, k)
  {
    MaskIsBits(x, y, 7);
    assert (BitOf(x, 7) == BitOf(y, 7)) == (x & 0x01 == y & 0x01);
  }

  /** Octets agree when their bits do. */
  lemma OctetsAreBits(a: Octets, b: Octets, n: nat)
    requires n <= |a| && n <= |b|
    ensures a[..n] == b[..n] <==> forall k: nat :: k < 8 * n ==> BitAt(a, k) == BitAt(b, k)
  {
    if a[..n] == b[..n] {
      forall k: nat | k < 8 * n ensures BitAt(a, k) == BitAt(b, k) {
        assert a[..n][k / 8] == b[..n][k / 8];
      }
    }
    if forall k: nat :: k < 8 * n ==> BitAt(a, k) == BitAt(b, k) {
      forall i | 0 <= i < n ensures a[i] == b[i] {
        forall k | 0 <= k < 8 ensures BitOf(a[i], k) == BitOf(b[i], k) {
          assert BitAt(a, 8 * i + k) == BitAt(b, 8 * i + k);
          assert (8 * i + k) / 8 == i && (8 * i + k) % 8 == k;
        }
        OctetIsBits(a[i], b[i]);
      }
    }
  }

  /** The bits of one octet of two addresses, by their places. */
  lemma OctetAt(a: Octets, b: Octets, i: nat, rem: nat)
    requires i < |a| && i < |b| && rem < 8
    ensures a[i] & Mask(rem) == b[i] & Mask(rem) <==>
            forall k: nat :: 8 * i <= k < 8 * i + rem ==> BitAt(a, k) == BitAt(b, k)
  {
    MaskIsBits(a[i], b[i], rem);
    forall k: nat | 8 * i <= k < 8 * i + rem ensures BitAt(a, k) == BitOf(a[i], k - 8 * i) && BitAt(b, k) == BitOf(b[i], k - 8 * i) {
      assert k / 8 == i && k % 8 == k - 8 * i;
    }
    if forall k: nat :: 8 * i <= k < 8 * i + rem ==> BitAt(a, k) == BitAt(b, k) {
      forall k | 0 <= k < rem ensures BitOf(a[i], k) == BitOf(b[i], k) {
        assert BitAt(a, 8 * i + k) == BitAt(b, 8 * i + k);
      }
    }
  }

  ghost predicate Agree(a: Octets, b: Octets, from: nat, to: nat)
    requires to <= 8 * |a| && to <= 8 * |b|
  {
    forall k: nat :: from <= k < to ==> BitAt(a, k) == BitAt(b, k)
  }

  lemma AgreeJoins(a: Octets, b: Octets, mid: nat, to: nat)
    requires mid <= to <= 8 * |a| && to <= 8 * |b|
    ensures Agree(a, b, 0, to) <==> Agree(a, b, 0, mid) && Agree(a, b, mid, to)
  {
  }

  /** The comparison by octets and mask is agreement on the prefix's bits. */
  lemma CoversIsBits(p: Prefix, q: Prefix)
    requires p.Valid() && q.Valid() && p.family == q.family && p.len <= q.len
    ensures p.Covers(q) <==> Agree(p.addr, q.addr, 0, p.len)
  {
    hide BitAt, BitOf, Mask, Agree;
    var full, rem := p.len / 8, p.len % 8;
    assert p.len == 8 * full + rem;
    AgreeJoins(p.addr, q.addr, 8 * full, p.len);
    OctetsAgree(p.addr, q.addr, full);
    if rem > 0 { OctetAgrees(p.addr, q.addr, full, rem); }
  }

  lemma OctetsAgree(a: Octets, b: Octets, n: nat)
    requires n <= |a| && n <= |b|
    ensures a[..n] == b[..n] <==> Agree(a, b, 0, 8 * n)
  {
    OctetsAreBits(a, b, n);
  }

  lemma OctetAgrees(a: Octets, b: Octets, i: nat, rem: nat)
    requires i < |a| && i < |b| && rem < 8
    ensures a[i] & Mask(rem) == b[i] & Mask(rem) <==> Agree(a, b, 8 * i, 8 * i + rem)
  {
    OctetAt(a, b, i, rem);
  }

  /** An octet with one bit turned over. */
  function Flip(b: bv8, k: nat): (c: bv8)
    requires k < 8
    ensures BitOf(c, k) != BitOf(b, k)
    ensures forall j :: 0 <= j < 8 && j != k ==> BitOf(c, j) == BitOf(b, j)
  {
    match k
    case 0 => b ^ 0x80
    case 1 => b ^ 0x40
    case 2 => b ^ 0x20
    case 3 => b ^ 0x10
    case 4 => b ^ 0x08
    case 5 => b ^ 0x04
    case 6 => b ^ 0x02
    case 7 => b ^ 0x01
  }

  function FlipAt(a: Octets, k: nat): (c: Octets)
    requires k < 8 * |a|
    ensures |c| == |a| && BitAt(c, k) != BitAt(a, k)
    ensures forall j: nat :: j < 8 * |a| && j != k ==> BitAt(c, j) == BitAt(a, j)
  {
    a[k / 8 := Flip(a[k / 8], k % 8)]
  }

  /** `covers` is exactly inclusion of address sets, family by family. */
  lemma CoversIsInclusion(p: Prefix, q: Prefix)
    requires p.Valid() && q.Valid()
    ensures p.Covers(q) <==> p.family == q.family && forall a :: q.Has(a) ==> p.Has(a)
  {
    if p.Covers(q) {
      CoversIsBits(p, q);
    } else if p.family == q.family {
      var a := q.addr;
      if q.len >= p.len {
        CoversIsBits(p, q);
        assert q.Has(a) && !p.Has(a);
      } else {
        var b := FlipAt(a, q.len);
        assert q.Has(a) && q.Has(b);
        assert !p.Has(a) || !p.Has(b) by {
          assert BitAt(a, q.len) != BitAt(b, q.len);
        }
      }
    }
  }

  // ── Resources ──────────────────────────────────────────────────────────

  datatype Resources = Resources(inherit4: bool, inherit6: bool, prefixes: seq<Prefix>) {
    predicate Valid() { forall i :: 0 <= i < |prefixes| ==> prefixes[i].Valid() }

    predicate Inherits(family: nat) { if family == 4 then inherit4 else inherit6 }

    predicate Covers(p: Prefix)
      requires Valid() && p.Valid()
    {
      exists i :: 0 <= i < |prefixes| && prefixes[i].Covers(p)
    }

    /** Whether an address of a family lies in them. */
    ghost predicate Has(family: nat, a: Octets)
      requires Valid()
    {
      exists i :: 0 <= i < |prefixes| && prefixes[i].family == family && prefixes[i].Has(a)
    }
  }

  function Inherited(own: Resources, from: seq<Prefix>): seq<Prefix> {
    if from == [] then []
    else
      var rest := Inherited(own, from[..|from| - 1]);
      if own.Inherits(from[|from| - 1].family) then rest + [from[|from| - 1]] else rest
  }

  lemma {:induction false} InheritedAreSome(own: Resources, from: seq<Prefix>)
    ensures forall p :: p in Inherited(own, from) <==> p in from && own.Inherits(p.family)
  {
    if from != [] {
      InheritedAreSome(own, from[..|from| - 1]);
      assert from == from[..|from| - 1] + [from[|from| - 1]];
    }
  }

  /** The resources in force under an issuer's: those listed, each inside the
      issuer's, and the issuer's own of each family that inherits. */
  ghost predicate IsUnder(own: Resources, issuer: Resources, r: Resources)
    requires own.Valid() && issuer.Valid()
  {
    && (forall i :: 0 <= i < |own.prefixes| ==> issuer.Covers(own.prefixes[i]))
    && r.prefixes == own.prefixes + Inherited(own, issuer.prefixes)
    && |r.prefixes| <= RESOURCES_MAX
    && !r.inherit4 && !r.inherit6
  }

  /** Nothing is in force that is not in the issuer's resources. */
  lemma UnderNarrows(own: Resources, issuer: Resources, r: Resources)
    requires own.Valid() && issuer.Valid() && IsUnder(own, issuer, r)
    ensures r.Valid() && forall family, a :: r.Has(family, a) ==> issuer.Has(family, a)
  {
    InheritedAreSome(own, issuer.prefixes);
    forall i | 0 <= i < |r.prefixes| ensures r.prefixes[i].Valid() {
      if i >= |own.prefixes| { assert r.prefixes[i] in Inherited(own, issuer.prefixes); }
    }
    forall family, a | r.Has(family, a) ensures issuer.Has(family, a) {
      var i :| 0 <= i < |r.prefixes| && r.prefixes[i].family == family && r.prefixes[i].Has(a);
      if i < |own.prefixes| {
        var j :| 0 <= j < |issuer.prefixes| && issuer.prefixes[j].Covers(own.prefixes[i]);
        CoversIsInclusion(issuer.prefixes[j], own.prefixes[i]);
      } else {
        assert r.prefixes[i] in Inherited(own, issuer.prefixes);
        var j :| 0 <= j < |issuer.prefixes| && issuer.prefixes[j] == r.prefixes[i];
      }
    }
  }

  method CoversAny(r: Resources, p: Prefix) returns (covered: bool)
    requires r.Valid() && p.Valid()
    ensures covered == r.Covers(p)
  {
    for i := 0 to |r.prefixes|
      invariant forall j :: 0 <= j < i ==> !r.prefixes[j].Covers(p)
    {
      if r.prefixes[i].Covers(p) {
        return true;
      }
    }
    return false;
  }

  /** `Resources::under`. */
  method Narrow(own: Resources, issuer: Resources) returns (r: Result<Resources, Refusal>)
    requires own.Valid() && issuer.Valid()
    ensures r.Ok? ==> IsUnder(own, issuer, r.value)
    ensures r.Err? ==> r.error == BadResources && forall x :: !IsUnder(own, issuer, x)
  {
    var taken: seq<Prefix> := [];
    for i := 0 to |own.prefixes|
      invariant taken == own.prefixes[..i] && i <= RESOURCES_MAX
      invariant forall j :: 0 <= j < i ==> issuer.Covers(own.prefixes[j])
    {
      var covered := CoversAny(issuer, own.prefixes[i]);
      if !covered || |taken| == RESOURCES_MAX {
        return Err(BadResources);
      }
      taken := taken + [own.prefixes[i]];
    }
    assert own.prefixes[..|own.prefixes|] == own.prefixes;
    for i := 0 to |issuer.prefixes|
      invariant taken == own.prefixes + Inherited(own, issuer.prefixes[..i]) && |taken| <= RESOURCES_MAX
    {
      var p := issuer.prefixes[i];
      assert issuer.prefixes[..i + 1][..i] == issuer.prefixes[..i];
      if own.Inherits(p.family) {
        if |taken| == RESOURCES_MAX {
          InheritedGrows(own, issuer.prefixes, i + 1);
          return Err(BadResources);
        }
        taken := taken + [p];
      }
    }
    assert issuer.prefixes[..|issuer.prefixes|] == issuer.prefixes;
    return Ok(Resources(false, false, taken));
  }

  lemma {:induction false} InheritedGrows(own: Resources, from: seq<Prefix>, k: nat)
    requires k <= |from|
    ensures |Inherited(own, from[..k])| <= |Inherited(own, from)|
  {
    if k == |from| {
      assert from[..k] == from;
    } else {
      InheritedGrows(own, from[..|from| - 1], k);
      assert from[..|from| - 1][..k] == from[..k];
    }
  }

  // ── Certificates and revocation lists ──────────────────────────────────

  /** What a certificate says; names, keys, signed bytes and signatures are
      opaque. */
  datatype Cert = Cert(tbs: nat, signature: nat, serial: nat, issuer: nat, subject: nat, key: nat,
                       notBefore: nat, notAfter: nat, ca: bool, resources: Resources)

  /** A revocation list; an entry that does not read is `None`. */
  datatype Crl = Crl(tbs: nat, signature: nat, issuer: nat, thisUpdate: nat, nextUpdate: nat, revoked: seq<Option<nat>>)

  /** The signatures that verify: key, signed bytes, signature. */
  type Signatures = set<(nat, nat, nat)>

  ghost predicate Signed(ok: Signatures, issuer: Cert, name: nat, tbs: nat, signature: nat) {
    name == issuer.subject && (issuer.key, tbs, signature) in ok
  }

  /** The list reads to its end and names the certificate nowhere. */
  ghost predicate ClearOf(crl: Crl, serial: nat) {
    && |crl.revoked| <= CRL_ENTRIES_MAX
    && forall i :: 0 <= i < |crl.revoked| ==> crl.revoked[i].Some? && crl.revoked[i].value != serial
  }

  /** `Crl::lists`. */
  method Lists(crl: Crl, serial: nat) returns (r: Result<bool, Refusal>)
    ensures r == Ok(false) <==> ClearOf(crl, serial)
    ensures r == Ok(true) ==> Some(serial) in crl.revoked
  {
    for n := 0 to |crl.revoked|
      invariant n <= CRL_ENTRIES_MAX
      invariant forall i :: 0 <= i < n ==> crl.revoked[i].Some? && crl.revoked[i].value != serial
    {
      if n + 1 > CRL_ENTRIES_MAX || crl.revoked[n].None? {
        return Err(Malformed);
      }
      if crl.revoked[n].value == serial {
        return Ok(true);
      }
    }
    return Ok(false);
  }

  ghost predicate Vouches(ok: Signatures, issuer: Cert, crl: Crl) {
    Signed(ok, issuer, crl.issuer, crl.tbs, crl.signature)
  }

  predicate Current(crl: Crl, now: nat) { crl.thisUpdate <= now && crl.nextUpdate != 0 && now <= crl.nextUpdate }

  /** Every list reads; the issuer's own are current and clear; there is one. */
  ghost predicate ListsAllow(ok: Signatures, child: Cert, issuer: Cert, crls: seq<Result<Crl, Refusal>>, now: nat) {
    && (forall i :: 0 <= i < |crls| ==> crls[i].Ok?)
    && (forall i :: 0 <= i < |crls| && Vouches(ok, issuer, crls[i].value) ==>
          Current(crls[i].value, now) && ClearOf(crls[i].value, child.serial))
    && (exists i :: 0 <= i < |crls| && Vouches(ok, issuer, crls[i].value))
  }

  /** What makes a certificate one of the chain. */
  ghost predicate IsIssued(ok: Signatures, child: Cert, issuer: Cert, issuerRes: Resources,
                           crls: seq<Result<Crl, Refusal>>, now: nat, r: Resources)
    requires child.resources.Valid() && issuerRes.Valid()
  {
    && issuer.ca
    && Signed(ok, issuer, child.issuer, child.tbs, child.signature)
    && child.notBefore <= now <= child.notAfter
    && IsUnder(child.resources, issuerRes, r)
    && ListsAllow(ok, child, issuer, crls, now)
  }

  /** `issued_under`. */
  method IssuedUnder(ok: Signatures, child: Cert, issuer: Cert, issuerRes: Resources,
                     crls: seq<Result<Crl, Refusal>>, now: nat) returns (r: Result<Resources, Refusal>)
    requires child.resources.Valid() && issuerRes.Valid()
    ensures r.Ok? ==> IsIssued(ok, child, issuer, issuerRes, crls, now, r.value)
    ensures r.Err? ==> forall x :: !IsIssued(ok, child, issuer, issuerRes, crls, now, x)
  {
    if !issuer.ca {
      return Err(NotCa);
    }
    if child.issuer != issuer.subject || (issuer.key, child.tbs, child.signature) !in ok {
      return Err(IssuerSignature);
    }
    if !(child.notBefore <= now <= child.notAfter) {
      return Err(Expired);
    }
    var res :- Narrow(child.resources, issuerRes);
    var found := false;
    for i := 0 to |crls|
      invariant forall j :: 0 <= j < i ==> crls[j].Ok?
      invariant forall j :: 0 <= j < i && Vouches(ok, issuer, crls[j].value) ==>
                  Current(crls[j].value, now) && ClearOf(crls[j].value, child.serial)
      invariant found <==> exists j :: 0 <= j < i && Vouches(ok, issuer, crls[j].value)
    {
      var crl :- crls[i];
      if crl.issuer == issuer.subject && (issuer.key, crl.tbs, crl.signature) in ok {
        assert Vouches(ok, issuer, crls[i].value);
        found := true;
        if now < crl.thisUpdate || crl.nextUpdate == 0 || now > crl.nextUpdate {
          return Err(StaleCrl);
        }
        var listed :- Lists(crl, child.serial);
        if listed {
          return Err(Revoked);
        }
      }
    }
    if !found {
      return Err(NoCrl);
    }
    return Ok(res);
  }
}
