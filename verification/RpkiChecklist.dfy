/** A signed checklist as evidence that a tenant holds a prefix: the chain
    from the trust anchor to its certificate, and what the checklist lists. */
module RpkiChecklist {
  import opened Basics
  import opened Rpki

  /** A signed object as read: its certificate, and whether its own attributes
      and signature hold. */
  datatype SignedObject = SignedObject(ee: Result<Cert, Refusal>, shape: Check<Refusal>, signer: Check<Refusal>)

  ghost predicate ReadsValid(c: Result<Cert, Refusal>) { c.Ok? ==> c.value.resources.Valid() }

  /** `anchor_check`. */
  function CheckAnchor(ok: Signatures, anchor: Result<Cert, Refusal>, now: nat): Result<Cert, Refusal> {
    var a :- anchor;
    :- Need(a.issuer == a.subject && (a.key, a.tbs, a.signature) in ok, AnchorSignature);
    :- Need(a.notBefore <= now <= a.notAfter, Expired);
    :- Need(a.ca, NotCa);
    :- Need(!a.resources.inherit4 && !a.resources.inherit6 && a.resources.prefixes != [], BadResources);
    Ok(a)
  }

  /** One certificate after the other, each issued under the last: what a
      verified path looks like, from the anchor's resources to the end's. */
  ghost predicate IsPath(ok: Signatures, certs: seq<Cert>, res: seq<Resources>, crls: seq<Result<Crl, Refusal>>, now: nat) {
    && |certs| == |res| > 0
    && (forall i :: 0 <= i < |certs| ==> certs[i].resources.Valid() && res[i].Valid())
    && res[0] == certs[0].resources
    && (forall i :: 0 < i < |certs| ==> IsIssued(ok, certs[i], certs[i - 1], res[i - 1], crls, now, res[i]))
  }

  /** Along a path the resources only shrink, so every address at its end is
      one of the anchor's own. */
  lemma {:induction false} PathNarrows(ok: Signatures, certs: seq<Cert>, res: seq<Resources>,
                                       crls: seq<Result<Crl, Refusal>>, now: nat, k: nat)
    requires IsPath(ok, certs, res, crls, now) && k < |certs|
    ensures forall family, a :: res[k].Has(family, a) ==> certs[0].resources.Has(family, a)
  {
    if k > 0 {
      PathNarrows(ok, certs, res, crls, now, k - 1);
      UnderNarrows(certs[k].resources, res[k - 1], res[k]);
    }
  }

  /** No certificate below the anchor is on any list its issuer signed. */
  lemma PathIsUnrevoked(ok: Signatures, certs: seq<Cert>, res: seq<Resources>,
                        crls: seq<Result<Crl, Refusal>>, now: nat, k: nat, crl: Crl)
    requires IsPath(ok, certs, res, crls, now) && 0 < k < |certs| && Ok(crl) in crls && Vouches(ok, certs[k - 1], crl)
    ensures Current(crl, now) && Some(certs[k].serial) !in crl.revoked
  {
    assert IsIssued(ok, certs[k], certs[k - 1], res[k - 1], crls, now, res[k]);
    var i :| 0 <= i < |crls| && crls[i] == Ok(crl);
    assert ClearOf(crl, certs[k].serial);
  }

  lemma IssuedIsValid(ok: Signatures, child: Cert, issuer: Cert, issuerRes: Resources,
                      crls: seq<Result<Crl, Refusal>>, now: nat, r: Resources)
    requires child.resources.Valid() && issuerRes.Valid() && IsIssued(ok, child, issuer, issuerRes, crls, now, r)
    ensures r.Valid()
  {
    UnderNarrows(child.resources, issuerRes, r);
  }

  lemma PathGrows(ok: Signatures, certs: seq<Cert>, res: seq<Resources>, crls: seq<Result<Crl, Refusal>>, now: nat,
                  child: Cert, r: Resources)
    requires IsPath(ok, certs, res, crls, now) && child.resources.Valid()
    requires IsIssued(ok, child, certs[|certs| - 1], res[|res| - 1], crls, now, r)
    ensures IsPath(ok, certs + [child], res + [r], crls, now)
  {
    IssuedIsValid(ok, child, certs[|certs| - 1], res[|res| - 1], crls, now, r);
    var cs, rs := certs + [child], res + [r];
    forall i | 0 < i < |cs| ensures IsIssued(ok, cs[i], cs[i - 1], rs[i - 1], crls, now, rs[i]) {
      if i < |certs| { assert cs[i] == certs[i] && rs[i] == res[i]; }
    }
  }

  /** The certificate after the `j`th is the `j`th handed in, and a CA's. */
  ghost predicate LinkAt(cas: seq<Result<Cert, Refusal>>, certs: seq<Cert>, j: nat)
    requires j < |cas| && j + 1 < |certs|
  {
    cas[j] == Ok(certs[j + 1]) && certs[j + 1].ca
  }

  /** A verified chain for these certificates, from the anchor. */
  ghost predicate ChainHolds(ok: Signatures, anchor: Result<Cert, Refusal>, cas: seq<Result<Cert, Refusal>>,
                             crls: seq<Result<Crl, Refusal>>, now: nat, certs: seq<Cert>, res: seq<Resources>)
  {
    && IsPath(ok, certs, res, crls, now) && |certs| == |cas| + 1
    && CheckAnchor(ok, anchor, now) == Ok(certs[0])
    && (forall i :: 0 <= i < |cas| ==> LinkAt(cas, certs, i))
  }

  /** The resources along a path are determined by its certificates. */
  lemma {:induction false} PathIsUnique(ok: Signatures, certs: seq<Cert>, res: seq<Resources>, other: seq<Resources>,
                                        crls: seq<Result<Crl, Refusal>>, now: nat, k: nat)
    requires IsPath(ok, certs, res, crls, now) && IsPath(ok, certs, other, crls, now) && k < |certs|
    ensures res[k] == other[k]
  {
    if k > 0 {
      PathIsUnique(ok, certs, res, other, crls, now, k - 1);
      assert IsIssued(ok, certs[k], certs[k - 1], res[k - 1], crls, now, res[k]);
      assert IsIssued(ok, certs[k], certs[k - 1], other[k - 1], crls, now, other[k]);
    }
  }

  /** The chain followed so far, through `n` of the certificates handed in. */
  ghost predicate Followed(ok: Signatures, anchor: Result<Cert, Refusal>, cas: seq<Result<Cert, Refusal>>,
                           crls: seq<Result<Crl, Refusal>>, now: nat, n: nat, certs: seq<Cert>, res: seq<Resources>)
  {
    && IsPath(ok, certs, res, crls, now) && |certs| == n + 1 && n <= |cas|
    && CheckAnchor(ok, anchor, now) == Ok(certs[0])
    && (forall j :: 0 <= j < n ==> LinkAt(cas, certs, j))
  }

  lemma FollowStarts(ok: Signatures, anchor: Result<Cert, Refusal>, cas: seq<Result<Cert, Refusal>>,
                     crls: seq<Result<Crl, Refusal>>, now: nat)
    requires ReadsValid(anchor) && CheckAnchor(ok, anchor, now).Ok?
    ensures var a := CheckAnchor(ok, anchor, now).value;
            a.resources.Valid() && Followed(ok, anchor, cas, crls, now, 0, [a], [a.resources])
  {
  }

  lemma FollowStep(ok: Signatures, anchor: Result<Cert, Refusal>, cas: seq<Result<Cert, Refusal>>,
                   crls: seq<Result<Crl, Refusal>>, now: nat, n: nat, certs: seq<Cert>, res: seq<Resources>,
                   cert: Cert, r: Resources)
    requires n < |cas| && |certs| == |res| == n + 1 && Followed(ok, anchor, cas, crls, now, n, certs, res)
    requires cas[n] == Ok(cert) && cert.ca && cert.resources.Valid() && res[n].Valid()
    requires IsIssued(ok, cert, certs[n], res[n], crls, now, r)
    ensures r.Valid() && Followed(ok, anchor, cas, crls, now, n + 1, certs + [cert], res + [r])
  {
    hide IsIssued, CheckAnchor;
    IssuedIsValid(ok, cert, certs[n], res[n], crls, now, r);
    PathGrows(ok, certs, res, crls, now, cert, r);
    var cs := certs + [cert];
    assert cs[0] == certs[0];
    forall j | 0 <= j < n + 1 ensures LinkAt(cas, cs, j) {
      if j < n { assert LinkAt(cas, certs, j) && cs[j + 1] == certs[j + 1]; } else { assert cs[j + 1] == cert; }
    }
  }

  lemma FollowEnds(ok: Signatures, anchor: Result<Cert, Refusal>, cas: seq<Result<Cert, Refusal>>,
                   crls: seq<Result<Crl, Refusal>>, now: nat, certs: seq<Cert>, res: seq<Resources>)
    requires Followed(ok, anchor, cas, crls, now, |cas|, certs, res)
    ensures ChainHolds(ok, anchor, cas, crls, now, certs, res)
  {
  }

  /** Whatever chain holds begins as the one followed so far. */
  lemma ChainBegins(ok: Signatures, anchor: Result<Cert, Refusal>, cas: seq<Result<Cert, Refusal>>,
                    crls: seq<Result<Crl, Refusal>>, now: nat, certs: seq<Cert>, res: seq<Resources>,
                    cs: seq<Cert>, rs: seq<Resources>)
    requires ChainHolds(ok, anchor, cas, crls, now, cs, rs)
    requires |certs| > 0 && Followed(ok, anchor, cas, crls, now, |certs| - 1, certs, res)
    ensures |cs| == |rs| == |cas| + 1 && |certs| == |res|
    ensures cs[|certs| - 1] == certs[|certs| - 1] && rs[|res| - 1] == res[|res| - 1]
  {
    var n := |certs|;
    forall i | 0 <= i < n ensures cs[i] == certs[i] {
      if i > 0 { assert LinkAt(cas, certs, i - 1) && LinkAt(cas, cs, i - 1); }
    }
    assert cs[..n] == certs;
    assert IsPath(ok, cs[..n], rs[..n], crls, now);
    PathIsUnique(ok, certs, res, rs[..n], crls, now, n - 1);
  }

  /** The chain loop of `signed_object`: a chain is followed to its end if and
      only if there is one. */
  method FollowChain(ok: Signatures, anchor: Result<Cert, Refusal>, cas: seq<Result<Cert, Refusal>>,
                     crls: seq<Result<Crl, Refusal>>, now: nat)
    returns (r: Result<(Cert, Resources), Refusal>, ghost certs: seq<Cert>, ghost res: seq<Resources>)
    requires ReadsValid(anchor) && forall i :: 0 <= i < |cas| ==> ReadsValid(cas[i])
    ensures r.Ok? ==> ChainHolds(ok, anchor, cas, crls, now, certs, res) && |cas| <= CHAIN_MAX
    ensures r.Ok? ==> r.value == (certs[|certs| - 1], res[|res| - 1])
    ensures r.Err? && |cas| <= CHAIN_MAX ==> forall cs, rs :: !ChainHolds(ok, anchor, cas, crls, now, cs, rs)
  {
    certs, res := [], [];
    if |cas| > CHAIN_MAX {
      return Err(Chain), [], [];
    }
    var a := CheckAnchor(ok, anchor, now);
    if a.Err? {
      return Err(a.error), [], [];
    }
    var issuer, narrowed := a.value, a.value.resources;
    certs, res := [issuer], [narrowed];
    hide IsPath, IsIssued, ChainHolds, Followed, CannotFollow;
    FollowStarts(ok, anchor, cas, crls, now);
    for i := 0 to |cas|
      invariant |certs| == |res| == i + 1 && Followed(ok, anchor, cas, crls, now, i, certs, res)
      invariant issuer == certs[i] && narrowed == res[i] && narrowed.Valid()
    {
      forall cs, rs | ChainHolds(ok, anchor, cas, crls, now, cs, rs)
        ensures |cs| == |rs| == |cas| + 1 && cs[i] == issuer && rs[i] == narrowed
      {
        ChainBegins(ok, anchor, cas, crls, now, certs, res, cs, rs);
      }
      var step := NextLink(ok, cas[i], issuer, narrowed, crls, now);
      if step.Err? {
        NoLink(ok, anchor, cas, crls, now, i, issuer, narrowed);
        return Err(step.error), [], [];
      }
      FollowStep(ok, anchor, cas, crls, now, i, certs, res, step.value.0, step.value.1);
      certs, res := certs + [step.value.0], res + [step.value.1];
      issuer, narrowed := step.value.0, step.value.1;
    }
    FollowEnds(ok, anchor, cas, crls, now, certs, res);
    return Ok((issuer, narrowed)), certs, res;
  }

  /** One turn of that loop: the next certificate, if it is a CA issued here. */
  method NextLink(ok: Signatures, ca: Result<Cert, Refusal>, issuer: Cert, res: Resources,
                  crls: seq<Result<Crl, Refusal>>, now: nat) returns (r: Result<(Cert, Resources), Refusal>)
    requires ReadsValid(ca) && res.Valid()
    ensures r.Ok? ==> ca == Ok(r.value.0) && r.value.0.ca && IsIssued(ok, r.value.0, issuer, res, crls, now, r.value.1)
    ensures r.Err? ==> CannotFollow(ok, ca, issuer, res, crls, now)
  {
    var cert :- ca;
    var under :- IssuedUnder(ok, cert, issuer, res, crls, now);
    if !cert.ca {
      return Err(NotCa);
    }
    return Ok((cert, under));
  }

  ghost predicate CannotFollow(ok: Signatures, ca: Result<Cert, Refusal>, issuer: Cert, res: Resources,
                               crls: seq<Result<Crl, Refusal>>, now: nat)
    requires ReadsValid(ca) && res.Valid()
  {
    ca.Ok? ==> !ca.value.ca || forall x :: !IsIssued(ok, ca.value, issuer, res, crls, now, x)
  }

  lemma NoLink(ok: Signatures, anchor: Result<Cert, Refusal>, cas: seq<Result<Cert, Refusal>>,
               crls: seq<Result<Crl, Refusal>>, now: nat, i: nat, issuer: Cert, res: Resources)
    requires i < |cas| && ReadsValid(cas[i]) && res.Valid() && CannotFollow(ok, cas[i], issuer, res, crls, now)
    requires forall cs, rs | ChainHolds(ok, anchor, cas, crls, now, cs, rs) :: cs[i] == issuer && rs[i] == res
    ensures forall cs, rs :: !ChainHolds(ok, anchor, cas, crls, now, cs, rs)
  {
    forall cs, rs ensures !ChainHolds(ok, anchor, cas, crls, now, cs, rs) {
      if ChainHolds(ok, anchor, cas, crls, now, cs, rs) { LinkHolds(ok, anchor, cas, crls, now, cs, rs, i); }
    }
  }

  lemma LinkHolds(ok: Signatures, anchor: Result<Cert, Refusal>, cas: seq<Result<Cert, Refusal>>,
                  crls: seq<Result<Crl, Refusal>>, now: nat, cs: seq<Cert>, rs: seq<Resources>, i: nat)
    requires ChainHolds(ok, anchor, cas, crls, now, cs, rs) && i < |cas|
    ensures |cs| == |rs| == |cas| + 1 && cas[i] == Ok(cs[i + 1]) && cs[i + 1].ca
    ensures IsIssued(ok, cs[i + 1], cs[i], rs[i], crls, now, rs[i + 1])
  {
    var k := i + 1;
    assert LinkAt(cas, cs, i);
    assert IsIssued(ok, cs[k], cs[k - 1], rs[k - 1], crls, now, rs[k]);
  }

  /** The object's own certificate in force under the chain. */
  ghost predicate ObjectHolds(ok: Signatures, anchor: Result<Cert, Refusal>, cas: seq<Result<Cert, Refusal>>,
                              crls: seq<Result<Crl, Refusal>>, signed: SignedObject, now: nat,
                              certs: seq<Cert>, res: seq<Resources>)
  {
    && |certs| == |res| == |cas| + 2 && signed.shape.Passed? && signed.signer.Passed?
    && ChainHolds(ok, anchor, cas, crls, now, certs[..|cas| + 1], res[..|cas| + 1])
    && signed.ee == Ok(certs[|cas| + 1]) && certs[|cas| + 1].resources.Valid()
    && IsIssued(ok, certs[|cas| + 1], certs[|cas|], res[|cas|], crls, now, res[|cas| + 1])
  }

  lemma ObjectIsPath(ok: Signatures, anchor: Result<Cert, Refusal>, cas: seq<Result<Cert, Refusal>>,
                     crls: seq<Result<Crl, Refusal>>, signed: SignedObject, now: nat, certs: seq<Cert>, res: seq<Resources>)
    requires ObjectHolds(ok, anchor, cas, crls, signed, now, certs, res)
    ensures IsPath(ok, certs, res, crls, now)
  {
    var n := |cas| + 1;
    PathGrows(ok, certs[..n], res[..n], crls, now, certs[n], res[n]);
    assert certs[..n] + [certs[n]] == certs && res[..n] + [res[n]] == res;
  }

  /** `signed_object`: the object's certificate in force under the chain, if
      and only if there is such a chain. */
  method VerifyObject(ok: Signatures, anchor: Result<Cert, Refusal>, cas: seq<Result<Cert, Refusal>>,
                      crls: seq<Result<Crl, Refusal>>, signed: SignedObject, now: nat)
    returns (r: Result<Resources, Refusal>, ghost certs: seq<Cert>, ghost res: seq<Resources>)
    requires ReadsValid(anchor) && ReadsValid(signed.ee) && forall i :: 0 <= i < |cas| ==> ReadsValid(cas[i])
    ensures r.Ok? ==> ObjectHolds(ok, anchor, cas, crls, signed, now, certs, res) && |cas| <= CHAIN_MAX
    ensures r.Ok? ==> r.value == res[|res| - 1]
    ensures r.Err? && |cas| <= CHAIN_MAX ==> forall cs, rs :: !ObjectHolds(ok, anchor, cas, crls, signed, now, cs, rs)
  {
    var chain;
    chain, certs, res := FollowChain(ok, anchor, cas, crls, now);
    if chain.Err? {
      return Err(chain.error), [], [];
    }
    if signed.shape.Refused? {
      return Err(signed.shape.error), [], [];
    }
    if signed.ee.Err? {
      return Err(signed.ee.error), [], [];
    }
    var under := IssuedUnder(ok, signed.ee.value, chain.value.0, chain.value.1, crls, now);
    if under.Err? {
      forall cs, rs | ObjectHolds(ok, anchor, cas, crls, signed, now, cs, rs) ensures false {
        ChainBegins(ok, anchor, cas, crls, now, certs, res, cs[..|cas| + 1], rs[..|cas| + 1]);
      }
      return Err(under.error), [], [];
    }
    if signed.signer.Refused? {
      return Err(signed.signer.error), [], [];
    }
    var cs, rs := certs + [signed.ee.value], res + [under.value];
    assert cs[..|cas| + 1] == certs && rs[..|cas| + 1] == res;
    return Ok(under.value), cs, rs;
  }

  // ── Claims ─────────────────────────────────────────────────────────────

  datatype ClaimRefusal = ObjectRefused(why: Refusal) | BadShape | Outside | NotCovered | NotChallenged

  /** A prefix as the traffic fabric writes it: IPv4 in the last four octets. */
  datatype Claim = Claim(family: nat, addr: Octets, len: nat) {
    predicate Valid() {
      && |addr| == 16
      && (|| (family == 4 && addr[..12] == seq(12, _ => 0) && len <= 32)
          || (family == 6 && len <= 128))
    }

    function AsPrefix(): (p: Prefix)
      requires Valid()
      ensures p.Valid() && p.family == family && p.len == len
    {
      Prefix(family, if family == 4 then addr[12..16] + seq(12, _ => 0) else addr, len)
    }
  }

  /** An address as the fabric writes it, as RFC 3779 bits. */
  function AsBits(family: nat, a: Octets): (b: Octets)
    requires |a| == 16
    ensures |b| == 16
  {
    if family == 4 then a[12..16] + seq(12, _ => 0) else a
  }

  /** Where a family's addresses begin in the fabric's sixteen octets, in bits. */
  function Start(family: nat): nat { if family == 4 then 96 else 0 }

  /** The addresses a claim is to: those that agree with it in its length of
      bits from where the family's addresses begin. */
  ghost predicate Claims(c: Claim, a: Octets)
    requires c.Valid() && |a| == 16
  {
    forall k: nat :: Start(c.family) <= k < Start(c.family) + c.len ==> BitAt(a, k) == BitAt(c.addr, k)
  }

  lemma BitsMove(family: nat, a: Octets, k: nat)
    requires |a| == 16 && (if family == 4 then k < 32 else k < 128)
    ensures BitAt(AsBits(family, a), k) == BitAt(a, Start(family) + k)
  {
    if family == 4 { assert (96 + k) / 8 == 12 + k / 8 && (96 + k) % 8 == k % 8; }
  }

  lemma ClaimIsItsPrefix(c: Claim, a: Octets)
    requires c.Valid() && |a| == 16
    ensures Claims(c, a) <==> c.AsPrefix().Has(AsBits(c.family, a))
  {
    assert c.AsPrefix().addr == AsBits(c.family, c.addr);
    forall k: nat | k < c.len
      ensures BitAt(AsBits(c.family, a), k) == BitAt(c.AsPrefix().addr, k)
          <==> BitAt(a, Start(c.family) + k) == BitAt(c.addr, Start(c.family) + k)
    {
      BitsMove(c.family, a, k);
      BitsMove(c.family, c.addr, k);
    }
    if c.AsPrefix().Has(AsBits(c.family, a)) {
      forall k: nat | Start(c.family) <= k < Start(c.family) + c.len ensures BitAt(a, k) == BitAt(c.addr, k) {
        assert BitAt(AsBits(c.family, a), k - Start(c.family)) == BitAt(c.AsPrefix().addr, k - Start(c.family));
      }
    }
  }

  /** A checklist as read: its resources (`None` where one does not read) and
      the digests it lists. `Readable` says the rest of its shape holds. */
  datatype Checklist = Checklist(shape: Check<ClaimRefusal>, prefixes: seq<Option<Prefix>>, tail: Check<ClaimRefusal>, digests: seq<Option<nat>>)

  ghost predicate ListValid(l: Checklist) {
    forall i :: 0 <= i < |l.prefixes| && l.prefixes[i].Some? ==> l.prefixes[i].value.Valid()
  }

  /** The coverage loop of `verify`. */
  method CheckCoverage(l: Checklist, ee: Resources, want: Prefix) returns (r: Check<ClaimRefusal>)
    requires ListValid(l) && ee.Valid() && want.Valid()
    ensures r.Passed? <==>
              && (forall i :: 0 <= i < |l.prefixes| ==> l.prefixes[i].Some? && ee.Covers(l.prefixes[i].value))
              && (exists i :: 0 <= i < |l.prefixes| && l.prefixes[i].Some? && l.prefixes[i].value.Covers(want))
  {
    var covered, any := false, false;
    for i := 0 to |l.prefixes|
      invariant forall j :: 0 <= j < i ==> l.prefixes[j].Some? && ee.Covers(l.prefixes[j].value)
      invariant any <==> i > 0
      invariant covered <==> exists j :: 0 <= j < i && l.prefixes[j].Some? && l.prefixes[j].value.Covers(want)
    {
      if l.prefixes[i].None? {
        return Refused(BadShape);
      }
      var p := l.prefixes[i].value;
      var inside := CoversAny(ee, p);
      if !inside {
        return Refused(Outside);
      }
      any := true;
      covered := covered || p.Covers(want);
    }
    if !any {
      return Refused(BadShape);
    }
    return if covered then Passed else Refused(NotCovered);
  }

  /** The challenge loop. */
  method FindChallenge(l: Checklist, digest: nat) returns (r: Check<ClaimRefusal>)
    ensures r.Passed? <==> (forall i :: 0 <= i < |l.digests| ==> l.digests[i].Some?) && Some(digest) in l.digests
  {
    var found := false;
    for i := 0 to |l.digests|
      invariant forall j :: 0 <= j < i ==> l.digests[j].Some?
      invariant found <==> Some(digest) in l.digests[..i]
    {
      if l.digests[i].None? {
        return Refused(BadShape);
      }
      found := found || l.digests[i].value == digest;
    }
    assert l.digests[..|l.digests|] == l.digests;
    return if found then Passed else Refused(NotChallenged);
  }

  /** What the checklist itself must say. */
  ghost predicate ListHolds(l: Checklist, ee: Resources, claim: Claim, challenge: nat)
    requires ListValid(l) && ee.Valid() && claim.Valid()
  {
    && l.shape.Passed? && l.tail.Passed?
    && (forall i :: 0 <= i < |l.prefixes| ==> l.prefixes[i].Some? && ee.Covers(l.prefixes[i].value))
    && (exists i :: 0 <= i < |l.prefixes| && l.prefixes[i].Some? && l.prefixes[i].value.Covers(claim.AsPrefix()))
    && (forall i :: 0 <= i < |l.digests| ==> l.digests[i].Some?) && Some(challenge) in l.digests
  }

  /** Every address of the claim lies in the resources. */
  ghost predicate AllHeld(r: Resources, claim: Claim)
    requires r.Valid() && claim.Valid()
  {
    forall a | |a| == 16 && Claims(claim, a) :: r.Has(claim.family, AsBits(claim.family, a))
  }

  /** `verify`: a checklist is taken as evidence if and only if its certificate
      verifies under the chain and it covers the claim and lists the challenge. */
  method Verify(ok: Signatures, anchor: Result<Cert, Refusal>, cas: seq<Result<Cert, Refusal>>,
                crls: seq<Result<Crl, Refusal>>, signed: SignedObject, list: Checklist, claim: Claim,
                challenge: nat, now: nat)
    returns (r: Check<ClaimRefusal>, ghost certs: seq<Cert>, ghost res: seq<Resources>)
    requires ReadsValid(anchor) && ReadsValid(signed.ee) && ListValid(list)
    requires forall i :: 0 <= i < |cas| ==> ReadsValid(cas[i])
    ensures r.Passed? ==>
              && claim.Valid() && |cas| <= CHAIN_MAX
              && ObjectHolds(ok, anchor, cas, crls, signed, now, certs, res)
              && res[|res| - 1].Valid() && ListHolds(list, res[|res| - 1], claim, challenge)
    ensures r.Refused? && claim.Valid() && |cas| <= CHAIN_MAX ==>
              || (forall cs, rs :: !ObjectHolds(ok, anchor, cas, crls, signed, now, cs, rs))
              || (|res| > 0 && ObjectHolds(ok, anchor, cas, crls, signed, now, certs, res)
                  && res[|res| - 1].Valid() && !ListHolds(list, res[|res| - 1], claim, challenge))
  {
    certs, res := [], [];
    if !claim.Valid() {
      return Refused(BadShape), [], [];
    }
    var inForce;
    inForce, certs, res := VerifyObject(ok, anchor, cas, crls, signed, now);
    if inForce.Err? {
      return Refused(ObjectRefused(inForce.error)), certs, res;
    }
    ObjectIsPath(ok, anchor, cas, crls, signed, now, certs, res);
    if list.shape.Refused? {
      return list.shape, certs, res;
    }
    var coverage := CheckCoverage(list, inForce.value, claim.AsPrefix());
    if coverage.Refused? || list.tail.Refused? {
      return if coverage.Refused? then coverage else list.tail, certs, res;
    }
    var found := FindChallenge(list, challenge);
    return found, certs, res;
  }

  /** When a checklist is taken as evidence, every address of the claim is the
      trust anchor's own, through however many certificates, listed or
      inherited. */
  lemma EvidenceIsAnchored(ok: Signatures, anchor: Result<Cert, Refusal>, cas: seq<Result<Cert, Refusal>>,
                           crls: seq<Result<Crl, Refusal>>, signed: SignedObject, list: Checklist, claim: Claim,
                           challenge: nat, now: nat, certs: seq<Cert>, res: seq<Resources>)
    requires ListValid(list) && claim.Valid() && ObjectHolds(ok, anchor, cas, crls, signed, now, certs, res)
    requires res[|res| - 1].Valid() && ListHolds(list, res[|res| - 1], claim, challenge)
    ensures anchor == Ok(certs[0]) && certs[0].resources.Valid() && AllHeld(certs[0].resources, claim)
  {
    ObjectIsPath(ok, anchor, cas, crls, signed, now, certs, res);
    BeginsAtAnchor(ok, anchor, cas, crls, signed, now, certs, res);
    CoveredIsHeld(list, res[|res| - 1], claim);
    HeldAlongPath(ok, certs, res, crls, now, claim);
  }

  lemma HeldAlongPath(ok: Signatures, certs: seq<Cert>, res: seq<Resources>, crls: seq<Result<Crl, Refusal>>,
                      now: nat, claim: Claim)
    requires IsPath(ok, certs, res, crls, now) && claim.Valid() && AllHeld(res[|res| - 1], claim)
    ensures AllHeld(certs[0].resources, claim)
  {
    PathNarrows(ok, certs, res, crls, now, |certs| - 1);
  }

  lemma BeginsAtAnchor(ok: Signatures, anchor: Result<Cert, Refusal>, cas: seq<Result<Cert, Refusal>>,
                       crls: seq<Result<Crl, Refusal>>, signed: SignedObject, now: nat,
                       certs: seq<Cert>, res: seq<Resources>)
    requires ObjectHolds(ok, anchor, cas, crls, signed, now, certs, res)
    ensures anchor == Ok(certs[0])
  {
    assert certs[..|cas| + 1][0] == certs[0];
  }

  /** No list handed in, signed by certificate `k`'s issuer, names it. */
  ghost predicate Unrevoked(ok: Signatures, certs: seq<Cert>, crls: seq<Result<Crl, Refusal>>, now: nat, k: nat)
    requires 0 < k < |certs|
  {
    forall crl :: Ok(crl) in crls && Vouches(ok, certs[k - 1], crl) ==>
      Current(crl, now) && Some(certs[k].serial) !in crl.revoked
  }

  /** Nor is any certificate below the anchor revoked. */
  lemma EvidenceIsUnrevoked(ok: Signatures, anchor: Result<Cert, Refusal>, cas: seq<Result<Cert, Refusal>>,
                            crls: seq<Result<Crl, Refusal>>, signed: SignedObject, now: nat,
                            certs: seq<Cert>, res: seq<Resources>)
    requires ObjectHolds(ok, anchor, cas, crls, signed, now, certs, res)
    ensures forall k :: 0 < k < |certs| ==> Unrevoked(ok, certs, crls, now, k)
  {
    ObjectIsPath(ok, anchor, cas, crls, signed, now, certs, res);
    forall k | 0 < k < |certs| ensures Unrevoked(ok, certs, crls, now, k) {
      forall crl | Ok(crl) in crls && Vouches(ok, certs[k - 1], crl)
        ensures Current(crl, now) && Some(certs[k].serial) !in crl.revoked
      {
        PathIsUnrevoked(ok, certs, res, crls, now, k, crl);
      }
    }
  }

  /** A claim inside a listed prefix inside the certificate's resources. */
  lemma CoveredIsHeld(l: Checklist, ee: Resources, claim: Claim)
    requires ListValid(l) && ee.Valid() && claim.Valid()
    requires forall i :: 0 <= i < |l.prefixes| ==> l.prefixes[i].Some? && ee.Covers(l.prefixes[i].value)
    requires exists i :: 0 <= i < |l.prefixes| && l.prefixes[i].Some? && l.prefixes[i].value.Covers(claim.AsPrefix())
    ensures AllHeld(ee, claim)
  {
    var i :| 0 <= i < |l.prefixes| && l.prefixes[i].Some? && l.prefixes[i].value.Covers(claim.AsPrefix());
    var p := l.prefixes[i].value;
    var j :| 0 <= j < |ee.prefixes| && ee.prefixes[j].Covers(p);
    CoversIsInclusion(p, claim.AsPrefix());
    CoversIsInclusion(ee.prefixes[j], p);
    forall a | |a| == 16 && Claims(claim, a) ensures ee.Has(claim.family, AsBits(claim.family, a)) {
      ClaimIsItsPrefix(claim, a);
    }
  }
}
