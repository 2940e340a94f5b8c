/** The access-token claims: reserved and custom ones merged into one object
    in byte order, each exactly once. */
module Claims {
  import opened Basics
  import opened Json
  import opened JsonWriter
  import opened JsonScan

  const MAX_EXTRA_CLAIMS := 32

  datatype Refusal = BufferTooSmall | TooManyClaims | DuplicateClaimKey | InvalidClaimKey

  datatype AccessClaims = AccessClaims(
    iss: string, sub: string, aud: string, scope: string, jkt: Option<string>, iat: U64, exp: U64)

  // ── Byte order ─────────────────────────────────────────────────────────

  predicate Less(a: string, b: string) {
    if b == "" then false
    else if a == "" then true
    else a[0] < b[0] || (a[0] == b[0] && Less(a[1..], b[1..]))
  }

  lemma {:induction false} LessIsOrder(a: string, b: string, c: string)
    ensures !Less(a, a) && !(Less(a, b) && Less(b, a))
    ensures Less(a, b) && Less(b, c) ==> Less(a, c)
    ensures !Less(a, b) && !Less(b, a) ==> a == b
    decreases |a| + |b| + |c|
  {
    if a != "" && b != "" && c != "" {
      LessIsOrder(a[1..], b[1..], c[1..]);
    } else if a != "" && b != "" {
      LessIsOrder(a[1..], b[1..], "");
    } else if a != "" {
      LessIsOrder(a[1..], "", "");
    }
    if a != "" && b != "" && !Less(a, b) && !Less(b, a) { assert a == [a[0]] + a[1..] && b == [b[0]] + b[1..]; }
  }

  /** `key_greater`. */
  method KeyGreater(a: string, b: string) returns (greater: bool)
    ensures greater == Less(b, a)
  {
    var i := 0;
    assert a[0..] == a && b[0..] == b;
    while i < |a| && i < |b|
      invariant i <= |a| && i <= |b| && Less(b, a) == Less(b[i..], a[i..])
    {
      if a[i] != b[i] {
        return a[i] > b[i];
      }
      assert a[i..][1..] == a[i + 1..] && b[i..][1..] == b[i + 1..];
      i := i + 1;
    }
    return |a| > |b|;
  }

  /** Keys strictly ascending, so no key twice. */
  ghost predicate Ascends(ms: seq<Member>) {
    forall i, j :: 0 <= i < j < |ms| ==> Less(ms[i].key, ms[j].key)
  }

  lemma AscendingDiffer(ms: seq<Member>)
    requires Ascends(ms)
    ensures DifferentKeys(ms)
  {
    forall i, j | 0 <= i < j < |ms| ensures ms[i].key != ms[j].key { LessIsOrder(ms[i].key, ms[j].key, ""); }
  }

  // ── Which claims ───────────────────────────────────────────────────────

  function Reserved(c: AccessClaims): (ms: seq<Member>)
    ensures |ms| >= 6
  {
    [Member("aud", Text(c.aud))]
    + (match c.jkt case Some(jkt) => [Member("cnf", Confirmation(jkt))] case None => [])
    + [Member("exp", Number(c.exp)), Member("iat", Number(c.iat)), Member("iss", Text(c.iss)),
       Member("scope", Text(c.scope)), Member("sub", Text(c.sub))]
  }

  predicate IsReserved(k: string) {
    k == "aud" || k == "cnf" || k == "exp" || k == "iat" || k == "iss" || k == "scope" || k == "sub"
  }

  predicate IsValidKey(k: string) {
    PlainKey(k) && forall i :: 0 <= i < |k| ==> k[i] < 0x7f as char
  }

  /** A custom claim's value is a scalar or raw JSON. */
  predicate CustomValue(v: Value) { !v.Confirmation? && (v.Number? ==> v.n <= U64_MAX) }

  ghost predicate Distinct(extra: seq<Member>) {
    forall i, j :: 0 <= i < j < |extra| ==> extra[i].key != extra[j].key
  }

  /** Custom claims a token may carry. */
  ghost predicate Acceptable(extra: seq<Member>) {
    && |extra| <= MAX_EXTRA_CLAIMS
    && (forall i :: 0 <= i < |extra| ==> IsValidKey(extra[i].key) && !IsReserved(extra[i].key))
    && Distinct(extra)
  }

  /** All of the claims: each reserved one that is active and each custom one,
      once, in ascending order of their keys. */
  ghost predicate AreClaims(c: AccessClaims, extra: seq<Member>, ms: seq<Member>) {
    Ascends(ms) && forall m :: m in ms <==> m in Reserved(c) || m in extra
  }

  lemma {:induction false} AscendingUnique(a: seq<Member>, b: seq<Member>)
    requires Ascends(a) && Ascends(b) && forall m :: m in a <==> m in b
    ensures a == b
  {
    if a == [] {
      EmptyOrHead(b);
    } else {
      assert a[0] in b;
      assert b != [] && b[0] in a;
      var i :| 0 <= i < |b| && b[i] == a[0];
      var j :| 0 <= j < |a| && a[j] == b[0];
      if i > 0 && j > 0 { LessIsOrder(a[0].key, b[0].key, ""); }
      TailsAlike(a, b);
      AscendingUnique(a[1..], b[1..]);
      assert a == [a[0]] + a[1..] && b == [b[0]] + b[1..];
    }
  }

  lemma EmptyOrHead(b: seq<Member>)
    ensures b == [] || b[0] in b
  {
  }

  lemma TailsAlike(a: seq<Member>, b: seq<Member>)
    requires Ascends(a) && Ascends(b) && a != [] && b != [] && a[0] == b[0] && forall m :: m in a <==> m in b
    ensures forall m :: m in a[1..] <==> m in b[1..]
  {
    HeadIsNotInTail(a);
    HeadIsNotInTail(b);
    assert forall m :: m in a <==> m == a[0] || m in a[1..];
    assert forall m :: m in b <==> m == b[0] || m in b[1..];
  }

  lemma HeadIsNotInTail(a: seq<Member>)
    requires Ascends(a) && a != []
    ensures a[0] !in a[1..]
  {
    forall i | 1 <= i < |a| ensures a[i] != a[0] { LessIsOrder(a[0].key, a[i].key, ""); }
  }

  /** Each before the next is each before all that follow. */
  lemma {:induction false} StepsAscend(ms: seq<Member>)
    requires forall i :: 0 <= i < |ms| - 1 ==> Less(ms[i].key, ms[i + 1].key)
    ensures Ascends(ms)
  {
    forall i, j | 0 <= i < j < |ms| ensures Less(ms[i].key, ms[j].key) { StepsReach(ms, i, j); }
  }

  lemma {:induction false} StepsReach(ms: seq<Member>, i: nat, j: nat)
    requires forall i :: 0 <= i < |ms| - 1 ==> Less(ms[i].key, ms[i + 1].key)
    requires i < j < |ms|
    ensures Less(ms[i].key, ms[j].key)
  {
    if i + 1 < j {
      StepsReach(ms, i, j - 1);
      assert Less(ms[j - 1].key, ms[j - 1 + 1].key);
      LessIsOrder(ms[i].key, ms[j - 1].key, ms[j].key);
    }
  }

  lemma NamesAscend()
    ensures Less("aud", "cnf") && Less("cnf", "exp") && Less("aud", "exp") && Less("exp", "iat")
    ensures Less("iat", "iss") && Less("iss", "scope") && Less("scope", "sub")
  {
    assert "iat"[1..] == "at" && "iss"[1..] == "ss" && "scope"[1..] == "cope" && "sub"[1..] == "ub";
  }

  lemma ReservedAscend(c: AccessClaims)
    ensures Ascends(Reserved(c))
    ensures forall i :: 0 <= i < |Reserved(c)| ==> IsReserved(Reserved(c)[i].key)
  {
    NamesAscend();
    StepsAscend(Reserved(c));
  }
}
